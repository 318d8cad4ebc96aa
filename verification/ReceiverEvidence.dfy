/** Receiver evidence: the capture that writes two append-only files, the parser that verifies
    them, and what the parser makes of a capture and of its suffixes. */
module ReceiverEvidence {
  import opened Bytes
  import opened Decimals

  /** One row of the timestamp file. */
  datatype Row = Row(
    sequence: nat, wallNs: int, monoNs: int, start: nat, end: nat, length: nat, digest: int, text: string)

  /** What an interval line says: its start and end in seconds, and the measured values; and whether
      int() converts its stream id and datagram counts, which it refuses for very long numerals. */
  datatype Interval = Interval(
    start: real, end: real, throughput: real, jitter: Option<real>, loss: Option<real>, countsConvert: bool)

  /** SHA-256, UTF-8 decoding with trailing line ends removed, the interval pattern, the conversion
      of a decimal to a finite float (None when there is none) and the JSON encoding of rows are
      used as given functions. */
  datatype Tools = Tools(
    digest: seq<byte> -> int, decode: seq<byte> -> string, interval: string -> Option<Interval>,
    float: real -> Option<real>, encode: Row -> seq<byte>, readRow: seq<byte> -> Option<Row>)

  /** An encoded row is one line, and reading it gives the row back. */
  ghost predicate Codec(t: Tools) {
    forall r: Row ::
      && |t.encode(r)| >= 2
      && t.encode(r)[|t.encode(r)| - 1] == LINE_FEED
      && LINE_FEED !in t.encode(r)[..|t.encode(r)| - 1]
      && t.readRow(t.encode(r)[..|t.encode(r)| - 1]) == Some(r)
  }

  // ---- capture ----

  /** A line as readline returns it, with the clocks read when it arrived. */
  datatype Arrival = Arrival(line: seq<byte>, wallNs: int, monoNs: int)

  function Raw(arrivals: seq<Arrival>): seq<byte> {
    if arrivals == [] then [] else Raw(arrivals[..|arrivals| - 1]) + arrivals[|arrivals| - 1].line
  }

  /** The row of arrival i. */
  function RowOf(t: Tools, arrivals: seq<Arrival>, i: nat): Row
    requires i < |arrivals|
  {
    var a := arrivals[i];
    var start := |Raw(arrivals[..i])|;
    Row(i, a.wallNs, a.monoNs, start, start + |a.line|, |a.line|, t.digest(a.line), t.decode(a.line))
  }

  function Rows(t: Tools, arrivals: seq<Arrival>, n: nat): (rows: seq<Row>)
    requires n <= |arrivals|
    ensures |rows| == n
  {
    seq(n, i requires 0 <= i < n && n <= |arrivals| => RowOf(t, arrivals, i))
  }

  /** main's loop: each line goes to the raw file, then its row to the timestamp file. */
  method Capture(t: Tools, arrivals: seq<Arrival>) returns (raw: seq<byte>, rows: seq<Row>)
    ensures raw == Raw(arrivals)
    ensures rows == Rows(t, arrivals, |arrivals|)
  {
    raw, rows := [], [];
    var rawOffset := 0;
    var sequence := 0;
    while sequence < |arrivals|
      invariant 0 <= sequence <= |arrivals|
      invariant raw == Raw(arrivals[..sequence]) && rawOffset == |raw|
      invariant rows == Rows(t, arrivals, sequence)
    {
      var a := arrivals[sequence];
      var offsetStart := rawOffset;
      raw := raw + a.line;
      rawOffset := rawOffset + |a.line|;
      assert arrivals[..sequence + 1] == arrivals[..sequence] + [a];
      assert arrivals[..sequence + 1][..sequence] == arrivals[..sequence];
      rows := rows + [Row(sequence, a.wallNs, a.monoNs, offsetStart, rawOffset, |a.line|, t.digest(a.line),
                          t.decode(a.line))];
      sequence := sequence + 1;
    }
    assert arrivals[..sequence] == arrivals;
  }

  /** Lines are not empty; the wall clock never goes back and the monotonic clock always advances. */
  predicate SoundArrivals(arrivals: seq<Arrival>) {
    && (forall i :: 0 <= i < |arrivals| ==>
          arrivals[i].line != [] && arrivals[i].wallNs > 0 && arrivals[i].monoNs > 0)
    && (forall i :: 0 < i < |arrivals| ==>
          arrivals[i].wallNs >= arrivals[i - 1].wallNs && arrivals[i].monoNs > arrivals[i - 1].monoNs)
  }

  // ---- parsing one interval ----

  datatype Shape = CompleteInterval | PartialInterval

  /** parse_interval's classification, with the duration it records. */
  function Classify(i: Interval): Option<(Shape, real)> {
    if i.end <= i.start then None
    else
      var duration := i.end - i.start;
      if duration > PRIMARY_TS_S + TOLERANCE_S then None
      else if Abs(duration - PRIMARY_TS_S) <= TOLERANCE_S then Some((CompleteInterval, PRIMARY_TS_S))
      else if 0.0 < duration < PRIMARY_TS_S then Some((PartialInterval, duration))
      else None
  }

  /** Complete means within a microsecond of 0.2 s, partial means positive and shorter than that;
      everything else is no sample. A recorded duration is within a microsecond of the real one. */
  lemma ClassifyVerdicts(i: Interval)
    ensures var d := i.end - i.start;
      match Classify(i)
      case Some((CompleteInterval, n)) => 0.199999 <= d <= 0.200001 && n == 0.2 && Abs(n - d) <= TOLERANCE_S
      case Some((PartialInterval, n)) => 0.0 < d < 0.199999 && n == d
      case None => d <= 0.0 || d > 0.200001
  {
  }

  /** decimal_to_float on a value that may be absent; None is its ValueError. */
  function FloatOf(t: Tools, x: Option<real>): Option<Option<real>> {
    if x == None then Some(None) else if t.float(x.value) == None then None else Some(t.float(x.value))
  }

  /** The recorded numbers of an interval; None when one of them is no finite float or no int. */
  function Recorded(t: Tools, i: Interval): Option<Interval> {
    var start, end, throughput := t.float(i.start), t.float(i.end), t.float(i.throughput);
    var jitter, loss := FloatOf(t, i.jitter), FloatOf(t, i.loss);
    if start == None || end == None || throughput == None || jitter == None || loss == None || !i.countsConvert then
      None
    else Some(Interval(start.value, end.value, throughput.value, jitter.value, loss.value, true))
  }

  /** parse_interval: no interval, a ValueError, or what is recorded. */
  datatype LineResult = NoInterval | Raises | Sample(interval: Interval, shape: Shape, duration: real)

  function ParseInterval(t: Tools, text: string): LineResult {
    match t.interval(text)
    case None => NoInterval
    case Some(i) =>
      match Classify(i)
      case None => NoInterval
      case Some((shape, duration)) =>
        if Recorded(t, i) == None || t.float(duration) == None then Raises
        else Sample(Recorded(t, i).value, shape, t.float(duration).value)
  }

  datatype ParsedInterval = ParsedInterval(
    sequence: nat, wallNs: int, monoNs: int, start: nat, end: nat, digest: int,
    interval: Interval, shape: Shape, duration: real)

  /** The record a row gives, if its line is an interval. */
  function RecordOf(t: Tools, r: Row): seq<ParsedInterval> {
    match ParseInterval(t, r.text)
    case Sample(interval, shape, duration) =>
      [ParsedInterval(r.sequence, r.wallNs, r.monoNs, r.start, r.end, r.digest, interval, shape, duration)]
    case _ => []
  }

  function Output(t: Tools, rows: seq<Row>): seq<ParsedInterval> {
    if rows == [] then [] else Output(t, rows[..|rows| - 1]) + RecordOf(t, rows[|rows| - 1])
  }

  // ---- the parser ----

  /** The integrity checks on a row, with offsets taken relative to a base. */
  predicate RowChecks(t: Tools, raw: seq<byte>, r: Row, base: nat, previous: Option<Row>) {
    var start, end := r.start - base, r.end - base;
    && 0 <= start < end <= |raw|
    && end - start == r.length
    && t.digest(raw[start..end]) == r.digest && t.decode(raw[start..end]) == r.text
    && r.wallNs > 0 && r.monoNs > 0
    && (previous.Some? ==>
          && r.sequence == previous.value.sequence + 1
          && r.wallNs >= previous.value.wallNs && r.monoNs > previous.value.monoNs)
  }

  /** The base is the first row's offset. */
  predicate RowSound(t: Tools, raw: seq<byte>, rows: seq<Row>, i: nat)
    requires i < |rows|
  {
    RowChecks(t, raw, rows[i], rows[0].start, if i == 0 then None else Some(rows[i - 1]))
  }

  /** The assertions of one pass of main's loop. */
  method CheckRow(t: Tools, raw: seq<byte>, r: Row, base: nat, previous: Option<Row>) returns (ok: bool)
    ensures ok == RowChecks(t, raw, r, base, previous)
  {
    if previous.Some? && r.sequence != previous.value.sequence + 1 { return false; }
    var start, end := r.start - base, r.end - base;
    if !(0 <= start < end <= |raw|) { return false; }
    var line := raw[start..end];
    if |line| != r.length || t.digest(line) != r.digest || t.decode(line) != r.text { return false; }
    if r.wallNs <= 0 || r.monoNs <= 0 { return false; }
    if previous.Some? && (r.wallNs < previous.value.wallNs || r.monoNs <= previous.value.monoNs) { return false; }
    return true;
  }

  /** No row's line makes parse_interval raise. */
  predicate NoneRaises(t: Tools, rows: seq<Row>) {
    forall i :: 0 <= i < |rows| ==> !ParseInterval(t, rows[i].text).Raises?
  }

  /** What the whole parse of a pair of files requires. */
  predicate Parses(t: Tools, raw: seq<byte>, rows: seq<Row>) {
    && (forall i :: 0 <= i < |rows| ==> RowSound(t, raw, rows, i))
    && NoneRaises(t, rows)
  }

  /** The row's digest, text and length are those of the bytes at its offset, counted from the first
      row's; it is numbered and timed after the row before it. */
  predicate Intact(t: Tools, raw: seq<byte>, rows: seq<Row>, i: nat)
    requires i < |rows|
  {
    var r, from := rows[i], rows[i].start - rows[0].start;
    && 0 <= from && 0 < r.length && r.end == r.start + r.length && from + r.length <= |raw|
    && t.digest(raw[from..from + r.length]) == r.digest && t.decode(raw[from..from + r.length]) == r.text
    && r.wallNs > 0 && r.monoNs > 0
    && (i > 0 ==>
          && r.sequence == rows[i - 1].sequence + 1
          && rows[i - 1].wallNs <= r.wallNs && rows[i - 1].monoNs < r.monoNs)
  }

  lemma SoundIsIntact(t: Tools, raw: seq<byte>, rows: seq<Row>, i: nat)
    requires i < |rows|
    ensures RowSound(t, raw, rows, i) <==> Intact(t, raw, rows, i)
  {
    var r, from := rows[i], rows[i].start - rows[0].start;
    if r.end == r.start + r.length { assert r.end - rows[0].start == from + r.length; }
  }

  /** What a successful parse proves of the two files, and all it asks of them: every row is intact. */
  lemma ParsedIsIntact(t: Tools, raw: seq<byte>, rows: seq<Row>)
    ensures Parses(t, raw, rows) <==>
      NoneRaises(t, rows) && forall i: nat :: i < |rows| ==> Intact(t, raw, rows, i)
  {
    hide NoneRaises;
    hide RowSound;
    hide Intact;
    forall i: nat | i < |rows| ensures RowSound(t, raw, rows, i) <==> Intact(t, raw, rows, i) {
      SoundIsIntact(t, raw, rows, i);
    }
  }

  /** main's loop; None is a failed assertion or a number that does not convert. */
  method Parse(t: Tools, raw: seq<byte>, rows: seq<Row>) returns (output: Option<seq<ParsedInterval>>)
    ensures output == if Parses(t, raw, rows) then Some(Output(t, rows)) else None
  {
    hide ParseInterval;
    hide Output;
    hide RecordOf;
    hide RowChecks;
    NoOutput(t, rows);
    var parsed: seq<ParsedInterval> := [];
    var previous: Option<Row> := None;
    var base: Option<nat> := None;
    var i := 0;
    while i < |rows|
      invariant 0 <= i <= |rows|
      invariant forall k :: 0 <= k < i ==> RowSound(t, raw, rows, k) && !ParseInterval(t, rows[k].text).Raises?
      invariant parsed == Output(t, rows[..i])
      invariant previous == if i == 0 then None else Some(rows[i - 1])
      invariant base == if i == 0 then None else Some(rows[0].start)
    {
      var r := rows[i];
      if base == None { base := Some(r.start); }
      var ok := CheckRow(t, raw, r, base.value, previous);
      assert ok == RowSound(t, raw, rows, i);
      if !ok { return None; }
      if ParseInterval(t, r.text).Raises? { return None; }
      OutputNext(t, rows, i);
      parsed := parsed + RecordOf(t, r);
      previous := Some(r);
      i := i + 1;
    }
    assert rows[..i] == rows;
    return Some(parsed);
  }

  lemma OutputNext(t: Tools, rows: seq<Row>, i: nat)
    requires i < |rows|
    ensures Output(t, rows[..i + 1]) == Output(t, rows[..i]) + RecordOf(t, rows[i])
  {
    hide RecordOf;
    assert rows[..i + 1][..i] == rows[..i];
  }

  lemma NoOutput(t: Tools, rows: seq<Row>)
    ensures Output(t, rows[..0]) == []
  {
  }

  // ---- what the parser makes of a capture ----

  lemma {:induction false} RawPrefix(arrivals: seq<Arrival>, m: nat, n: nat)
    requires m <= n <= |arrivals|
    ensures Raw(arrivals[..m]) <= Raw(arrivals[..n])
    decreases n
  {
    if m < n {
      RawPrefix(arrivals, m, n - 1);
      assert arrivals[..n][..n - 1] == arrivals[..n - 1];
    }
  }

  lemma RawNext(arrivals: seq<Arrival>, i: nat)
    requires i < |arrivals|
    ensures Raw(arrivals[..i + 1]) == Raw(arrivals[..i]) + arrivals[i].line
  {
    assert arrivals[..i + 1][..i] == arrivals[..i];
  }

  /** What the row of arrival i records of it. */
  lemma RowRecords(t: Tools, arrivals: seq<Arrival>, i: nat)
    requires i < |arrivals|
    ensures var r, a := Rows(t, arrivals, |arrivals|)[i], arrivals[i];
      && r.sequence == i && r.wallNs == a.wallNs && r.monoNs == a.monoNs
      && r.length == |a.line| && r.digest == t.digest(a.line) && r.text == t.decode(a.line)
  {
  }

  /** The offsets tile the raw file: row i is exactly its own line, and starts where row i-1 ends. */
  lemma OffsetsTile(t: Tools, arrivals: seq<Arrival>, i: nat)
    requires i < |arrivals|
    ensures var r := RowOf(t, arrivals, i);
      && r.end <= |Raw(arrivals)| && Raw(arrivals)[r.start..r.end] == arrivals[i].line
      && (i == 0 ==> r.start == 0)
      && (i > 0 ==> r.start == RowOf(t, arrivals, i - 1).end)
      && (i + 1 == |arrivals| ==> r.end == |Raw(arrivals)|)
  {
    hide Raw;
    RawNext(arrivals, i);
    RawPrefix(arrivals, i + 1, |arrivals|);
    assert arrivals[..|arrivals|] == arrivals;
    MiddleOf(Raw(arrivals), Raw(arrivals[..i]), arrivals[i].line);
    if i > 0 { RawNext(arrivals, i - 1); } else { NothingRaw(arrivals); }
  }

  lemma NothingRaw(arrivals: seq<Arrival>)
    ensures Raw(arrivals[..0]) == []
  {
  }

  lemma MiddleOf(whole: seq<byte>, front: seq<byte>, line: seq<byte>)
    requires front + line <= whole
    ensures whole[|front|..|front| + |line|] == line
  {
    forall k | 0 <= k < |line| ensures whole[|front| + k] == line[k] { assert (front + line)[|front| + k] == line[k]; }
  }

  /** Raw bytes that hold lines m .. n-1 from their start hold line k at its rebased offsets. */
  lemma SliceHoldsLine(t: Tools, arrivals: seq<Arrival>, m: nat, n: nat, raw: seq<byte>, k: nat)
    requires m <= k < n <= |arrivals|
    requires Covers(arrivals, m, n, raw)
    ensures var from := |Raw(arrivals[..m])|;
      var r := RowOf(t, arrivals, k);
      from <= r.start <= r.end && r.end - from <= |raw| && raw[r.start - from..r.end - from] == arrivals[k].line
  {
    hide Raw;
    var from, to := |Raw(arrivals[..m])|, |Raw(arrivals[..n])|;
    var r := RowOf(t, arrivals, k);
    OffsetsTile(t, arrivals, k);
    RawNext(arrivals, k);
    RawPrefix(arrivals, m, k);
    RawPrefix(arrivals, k + 1, n);
    SameBytes(Raw(arrivals), raw, from, to, r.start, r.end);
  }

  /** What begins with whole[from..to] has the same bytes in between. */
  lemma SameBytes(whole: seq<byte>, raw: seq<byte>, from: nat, to: nat, start: nat, end: nat)
    requires from <= start <= end <= to <= |whole| && whole[from..to] <= raw
    ensures end - from <= |raw| && raw[start - from..end - from] == whole[start..end]
  {
    forall i | start <= i < end ensures raw[i - from] == whole[i] {
      assert raw[..to - from][i - from] == whole[from..to][i - from];
    }
  }

  /** raw begins with the lines m .. n-1 of a capture. */
  predicate Covers(arrivals: seq<Arrival>, m: nat, n: nat, raw: seq<byte>)
    requires m <= n <= |arrivals|
  {
    var from, to := |Raw(arrivals[..m])|, |Raw(arrivals[..n])|;
    from <= to <= |Raw(arrivals)| && Raw(arrivals)[from..to] <= raw
  }

  /** Any run of consecutive rows, with any raw bytes that start at the first row's offset and
      contain at least the lines of those rows, passes every check. */
  lemma SliceIsSound(t: Tools, arrivals: seq<Arrival>, m: nat, n: nat, raw: seq<byte>, i: nat)
    requires SoundArrivals(arrivals) && m <= n <= |arrivals| && i < n - m && Covers(arrivals, m, n, raw)
    ensures RowSound(t, raw, Rows(t, arrivals, n)[m..], i)
  {
    hide Raw;
    hide Covers;
    var k := m + i;
    var rows := Rows(t, arrivals, n)[m..];
    assert rows[i] == RowOf(t, arrivals, k) && rows[0] == RowOf(t, arrivals, m);
    SliceHoldsLine(t, arrivals, m, n, raw, k);
    assert arrivals[k].line != [];
    if i > 0 { assert rows[i - 1] == RowOf(t, arrivals, k - 1); }
  }

  lemma SliceBounds(arrivals: seq<Arrival>, m: nat, n: nat)
    requires m <= n <= |arrivals|
    ensures |Raw(arrivals[..m])| <= |Raw(arrivals[..n])| <= |Raw(arrivals)|
    ensures Raw(arrivals)[..|Raw(arrivals[..n])|] == Raw(arrivals[..n])
  {
    RawPrefix(arrivals, m, n);
    RawPrefix(arrivals, n, |arrivals|);
    assert arrivals[..|arrivals|] == arrivals;
  }

  lemma {:induction false} OutputConcat(t: Tools, rows: seq<Row>, more: seq<Row>)
    ensures Output(t, rows + more) == Output(t, rows) + Output(t, more)
  {
    hide RecordOf;
    if more == [] {
      assert rows + more == rows;
    } else {
      var front, r := more[..|more| - 1], more[|more| - 1];
      OutputConcat(t, rows, front);
      assert (rows + more)[..|rows + more| - 1] == rows + front;
    }
  }

  /** Parsing a suffix of a capture, raw bytes and rows cut at the same line, succeeds whenever its
      own lines hold no number that does not convert, so whenever the full parse does, and gives exactly
      the matching suffix of the full parse. */
  lemma SuffixParses(t: Tools, arrivals: seq<Arrival>, m: nat)
    requires SoundArrivals(arrivals) && m <= |arrivals|
    ensures var rows := Rows(t, arrivals, |arrivals|);
      var raw := Raw(arrivals);
      && |Raw(arrivals[..m])| <= |raw|
      && (Parses(t, raw[|Raw(arrivals[..m])|..], rows[m..]) <==> NoneRaises(t, rows[m..]))
      && (NoneRaises(t, rows) ==> NoneRaises(t, rows[m..]))
      && Output(t, rows) == Output(t, rows[..m]) + Output(t, rows[m..])
  {
    hide Output;
    hide ParseInterval;
    hide RowSound;
    var rows := Rows(t, arrivals, |arrivals|);
    var raw := Raw(arrivals);
    SliceBounds(arrivals, m, |arrivals|);
    assert arrivals[..|arrivals|] == arrivals;
    forall i | 0 <= i < |rows[m..]| ensures RowSound(t, raw[|Raw(arrivals[..m])|..], rows[m..], i) {
      SliceIsSound(t, arrivals, m, |arrivals|, raw[|Raw(arrivals[..m])|..], i);
    }
    OutputConcat(t, rows[..m], rows[m..]);
    assert rows[..m] + rows[m..] == rows;
  }
}
