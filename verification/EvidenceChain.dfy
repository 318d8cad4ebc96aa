/** The stages of receiver evidence joined: what the parser writes is what the canonicaliser and the
    freshness gate read. */
module EvidenceChain {
  import opened Bytes
  import opened Decimals
  import Canonicalizer
  import Freshness
  import R = ReceiverEvidence
  import Snapshot

  // ---- what the numbers are ----

  /** The staging row a parsed interval is written as. */
  function StagingOf(p: R.ParsedInterval): Canonicalizer.StagingRow {
    var shape := if p.shape.CompleteInterval? then Canonicalizer.CompleteShape else Canonicalizer.PartialShape;
    Canonicalizer.StagingRow(
      p.sequence, shape, p.interval.start, p.interval.end, p.duration, p.interval.throughput, p.interval.jitter,
      p.interval.loss, p.wallNs, p.monoNs)
  }

  function Staging(parsed: seq<R.ParsedInterval>): seq<Canonicalizer.StagingRow> {
    seq(|parsed|, i requires 0 <= i < |parsed| => StagingOf(parsed[i]))
  }

  /** Conversion to a float and back to a decimal keeps the order, and returns whole microseconds of at
      most fifteen digits as they were. */
  ghost predicate KeepsOrder(t: R.Tools) {
    && (forall x, y :: x <= y && t.float(x).Some? && t.float(y).Some? ==> t.float(x).value <= t.float(y).value)
    && (forall n: nat :: n < 1_000_000_000_000_000 ==> t.float(Micro(n)) == Some(Micro(n)))
  }

  function Micro(n: nat): real { n as real / 1000000.0 }

  /** The interval pattern has no sign: its numbers are not negative. */
  ghost predicate Unsigned(t: R.Tools) {
    forall text :: t.interval(text).Some? ==>
      var i := t.interval(text).value;
      && 0.0 <= i.start && 0.0 <= i.end && 0.0 <= i.throughput
      && (i.jitter.Some? ==> 0.0 <= i.jitter.value) && (i.loss.Some? ==> 0.0 <= i.loss.value)
  }

  lemma Landmarks()
    ensures Micro(0) == 0.0 && Micro(199999) == 0.199999 && Micro(200000) == 0.2 && Micro(100000000) == 100.0
  {
  }

  lemma NonNegativeStays(t: R.Tools, x: real)
    requires KeepsOrder(t) && 0.0 <= x && t.float(x).Some?
    ensures 0.0 <= t.float(x).value
  {
    Landmarks();
    assert t.float(Micro(0)) == Some(0.0);
  }

  /** A sample's numbers: the duration is 0.2 exactly, or shorter and at most the recorded end. */
  lemma RecordedSample(t: R.Tools, text: string)
    requires KeepsOrder(t) && Unsigned(t) && R.ParseInterval(t, text).Sample?
    ensures var s := R.ParseInterval(t, text);
      && 0.0 <= s.interval.start && 0.0 <= s.duration && 0.0 <= s.interval.throughput
      && (s.interval.jitter.Some? ==> 0.0 <= s.interval.jitter.value)
      && (s.interval.loss.Some? ==> 0.0 <= s.interval.loss.value)
      && (s.shape.CompleteInterval? ==> s.duration == PRIMARY_TS_S && 0.199999 <= s.interval.end)
      && (s.shape.PartialInterval? ==> s.duration < PRIMARY_TS_S && s.duration <= s.interval.end)
  {
    Landmarks();
    var i := t.interval(text).value;
    var s := R.ParseInterval(t, text);
    NonNegativeStays(t, i.start);
    NonNegativeStays(t, i.throughput);
    if i.jitter.Some? { NonNegativeStays(t, i.jitter.value); }
    if i.loss.Some? { NonNegativeStays(t, i.loss.value); }
    NonNegativeStays(t, R.Classify(i).value.1);
    assert t.float(Micro(200000)) == Some(0.2) && t.float(Micro(199999)) == Some(0.199999);
  }

  // ---- order ----

  /** Sequence numbers and the monotonic clock rise, the wall clock does not fall. */
  predicate Rises(ps: seq<R.ParsedInterval>) {
    forall i, j :: 0 <= i < j < |ps| ==>
      ps[i].sequence < ps[j].sequence && ps[i].wallNs <= ps[j].wallNs && ps[i].monoNs < ps[j].monoNs
  }

  predicate UpTo(ps: seq<R.ParsedInterval>, r: R.Row) {
    forall i :: 0 <= i < |ps| ==>
      && ps[i].sequence <= r.sequence && ps[i].wallNs <= r.wallNs && ps[i].monoNs <= r.monoNs
  }

  ghost predicate FromLine(t: R.Tools, p: R.ParsedInterval) {
    && p.wallNs > 0 && p.monoNs > 0
    && exists text :: R.ParseInterval(t, text) == R.Sample(p.interval, p.shape, p.duration)
  }

  ghost predicate FromLines(t: R.Tools, ps: seq<R.ParsedInterval>) {
    forall i :: 0 <= i < |ps| ==> FromLine(t, ps[i])
  }

  ghost predicate AllSound(t: R.Tools, raw: seq<byte>, rows: seq<R.Row>) {
    forall i :: 0 <= i < |rows| ==> R.RowSound(t, raw, rows, i)
  }

  lemma FrontSound(t: R.Tools, raw: seq<byte>, rows: seq<R.Row>)
    requires rows != [] && AllSound(t, raw, rows)
    ensures AllSound(t, raw, rows[..|rows| - 1])
  {
    var front := rows[..|rows| - 1];
    forall i | 0 <= i < |front| ensures R.RowSound(t, raw, front, i) { assert R.RowSound(t, raw, rows, i); }
  }

  lemma OneRow(t: R.Tools, raw: seq<byte>, rows: seq<R.Row>, i: nat)
    requires i < |rows| && AllSound(t, raw, rows)
    ensures rows[i].wallNs > 0 && rows[i].monoNs > 0
    ensures i > 0 ==>
      && rows[i - 1].sequence < rows[i].sequence
      && rows[i - 1].wallNs <= rows[i].wallNs && rows[i - 1].monoNs < rows[i].monoNs
  {
    assert R.RowSound(t, raw, rows, i);
  }

  lemma RecordFromLine(t: R.Tools, r: R.Row)
    requires r.wallNs > 0 && r.monoNs > 0
    ensures |R.RecordOf(t, r)| <= 1 && UpTo(R.RecordOf(t, r), r) && FromLines(t, R.RecordOf(t, r))
    ensures forall p :: p in R.RecordOf(t, r) ==>
      && p.sequence == r.sequence && p.wallNs == r.wallNs && p.monoNs == r.monoNs
      && p.start == r.start && p.end == r.end && p.digest == r.digest
  {
    hide R.ParseInterval;
  }

  /** What a pair that passes the integrity checks parses to is in order. */
  lemma {:induction false} OutputRises(t: R.Tools, raw: seq<byte>, rows: seq<R.Row>)
    requires AllSound(t, raw, rows)
    ensures Rises(R.Output(t, rows)) && FromLines(t, R.Output(t, rows))
    ensures rows != [] ==> UpTo(R.Output(t, rows), rows[|rows| - 1])
  {
    hide AllSound;
    hide FromLine;
    hide R.RecordOf;
    if rows != [] {
      var front, last := rows[..|rows| - 1], rows[|rows| - 1];
      FrontSound(t, raw, rows);
      OutputRises(t, raw, front);
      OneRow(t, raw, rows, |rows| - 1);
      RecordFromLine(t, last);
    }
  }

  // ---- the canonicaliser accepts what the parser writes ----

  /** The two things the schema of canonical rows can still find wrong with a parsed interval: a
      partial duration so small that its float is zero, and a loss of more than a hundred percent. */
  predicate Presentable(p: R.ParsedInterval) {
    p.duration > 0.0 && (p.interval.loss.Some? ==> p.interval.loss.value <= 100.0)
  }

  /** base_interval_class never fails on a parsed interval whose duration is not zero, and a
      complete one is canonical with a duration of 0.2 s exactly. */
  lemma ParsedIntervalPasses(t: R.Tools, p: R.ParsedInterval)
    requires KeepsOrder(t) && Unsigned(t) && FromLine(t, p)
    ensures Canonicalizer.BaseClass(StagingOf(p)).Some? <==> p.duration > 0.0
    ensures p.shape.CompleteInterval? ==> p.duration == PRIMARY_TS_S
    ensures Canonicalizer.RowSound(StagingOf(p), []) <==> Presentable(p)
  {
    hide R.ParseInterval;
    hide KeepsOrder;
    hide Unsigned;
    var text :| R.ParseInterval(t, text) == R.Sample(p.interval, p.shape, p.duration);
    RecordedSample(t, text);
  }

  /** Without an actuator timeline the canonicaliser accepts the output of every successful parse
      exactly when all its intervals are presentable: its order checks never fail. */
  lemma ParserOutputCanonicalises(t: R.Tools, raw: seq<byte>, rows: seq<R.Row>)
    requires KeepsOrder(t) && Unsigned(t) && R.Parses(t, raw, rows)
    ensures var staging := Staging(R.Output(t, rows));
      && Canonicalizer.OrderSound(staging, |staging|)
      && ((forall i :: 0 <= i < |staging| ==> Canonicalizer.RowSound(staging[i], []))
          <==> forall p :: p in R.Output(t, rows) ==> Presentable(p))
  {
    hide KeepsOrder;
    hide Unsigned;
    hide Canonicalizer.RowSound;
    hide Presentable;
    hide R.Output;
    hide R.RowSound;
    hide R.NoneRaises;
    hide FromLine;
    OutputRises(t, raw, rows);
    var parsed := R.Output(t, rows);
    var staging := Staging(parsed);
    forall i | 0 <= i < |staging| ensures Canonicalizer.RowSound(staging[i], []) <==> Presentable(parsed[i]) {
      assert FromLine(t, parsed[i]);
      ParsedIntervalPasses(t, parsed[i]);
    }
  }

  // ---- the freshness gate accepts what the canonicaliser writes ----

  /** The canonical rows of staging rows, without an actuator timeline. */
  function CanonicalOf(staging: seq<Canonicalizer.StagingRow>): seq<Canonicalizer.CanonicalRow>
    requires forall i :: 0 <= i < |staging| ==> Canonicalizer.RowSound(staging[i], [])
  {
    seq(|staging|, i requires 0 <= i < |staging| && Canonicalizer.RowSound(staging[i], []) =>
      Canonicalizer.CanonicalRowOf(staging[i], []))
  }

  ghost predicate AllCanonical(parsed: seq<R.ParsedInterval>) {
    forall i :: 0 <= i < |Staging(parsed)| ==> Canonicalizer.RowSound(Staging(parsed)[i], [])
  }

  lemma CanonicalRow(p: R.ParsedInterval)
    requires Canonicalizer.RowSound(StagingOf(p), [])
    ensures var c := Canonicalizer.CanonicalRowOf(StagingOf(p), []);
      && c.recordId == p.sequence && c.wallNs == c.timestampNs == p.wallNs && c.monoNs == p.monoNs
      && c.start == p.interval.start && c.end == p.interval.end && c.duration == p.duration
      && c.throughput == p.interval.throughput
      && (c.intervalClass == Canonicalizer.Complete ==> c.duration == PRIMARY_TS_S)
      && c.intervalClass != Canonicalizer.TransitionCrossing
  {
  }

  /** Canonical rows made from a parse rise, so the evaluator's loader never refuses a selection
      of them; every complete one lasts 0.2 s exactly; and the gate's own loader accepts them
      exactly when no two successive intervals arrived at the same wall-clock time, which neither
      capture nor parser rules out. */
  lemma CanonicalRowsLoad(parsed: seq<R.ParsedInterval>, cutoff: Option<int>)
    requires Rises(parsed) && AllCanonical(parsed)
    ensures var rows := CanonicalOf(Staging(parsed));
      && Freshness.Rising(rows)
      && (Freshness.RowsAccepted(rows, cutoff, |rows|)
          <==> forall i :: 0 < i < |parsed| ==> parsed[i - 1].wallNs != parsed[i].wallNs)
  {
    hide Canonicalizer.RowSound;
    hide Canonicalizer.CanonicalRowOf;
    hide StagingOf;
    var rows := CanonicalOf(Staging(parsed));
    forall i | 0 <= i < |rows|
      ensures rows[i].recordId == parsed[i].sequence && rows[i].wallNs == rows[i].timestampNs == parsed[i].wallNs
      ensures rows[i].monoNs == parsed[i].monoNs
      ensures rows[i].intervalClass == Canonicalizer.Complete ==> rows[i].duration == PRIMARY_TS_S
    {
      assert Canonicalizer.RowSound(Staging(parsed)[i], []);
      CanonicalRow(parsed[i]);
    }
  }

  /** From the accepted snapshot to the gate: when every line's numbers convert and every
      interval is presentable, the canonicaliser accepts the parse of the first k rows, and any 50
      rows the gate selects from it pass the evaluator's loader. */
  lemma SnapshotReachesGate(
    t: R.Tools, arrivals: seq<R.Arrival>, raw: seq<byte>, stamps: seq<byte>, cutoff: Option<int>) returns (k: nat)
    requires R.Codec(t) && R.SoundArrivals(arrivals) && Snapshot.ReadLines(arrivals)
    requires Snapshot.Simultaneous(Snapshot.ItemsOf(t, arrivals), raw, stamps)
    requires Snapshot.EndsLine(raw) && Snapshot.EndsLine(stamps)
    requires KeepsOrder(t) && Unsigned(t)
    ensures 1 <= k <= |arrivals| && Snapshot.ReadRows(t, stamps) == Some(R.Rows(t, arrivals, k))
    ensures var rows := R.Rows(t, arrivals, k);
      var parsed := R.Output(t, rows);
      R.NoneRaises(t, rows) && (forall p :: p in parsed ==> Presentable(p)) ==>
        && R.Parses(t, raw, rows)
        && AllCanonical(parsed) && Canonicalizer.OrderSound(Staging(parsed), |parsed|)
        && Freshness.Rising(CanonicalOf(Staging(parsed)))
        && var kept := Freshness.KeptRows(CanonicalOf(Staging(parsed)), cutoff);
           |kept| >= 50 ==> Freshness.Loadable(kept[|kept| - 50..], 50)
  {
    hide KeepsOrder;
    hide Unsigned;
    hide R.Codec;
    hide R.Output;
    hide R.Rows;
    hide R.RowSound;
    hide R.NoneRaises;
    hide Presentable;
    hide FromLine;
    hide Canonicalizer.RowSound;
    hide CanonicalOf;
    hide Freshness.KeptRows;
    hide Freshness.Rising;
    hide Freshness.Loadable;
    hide Snapshot.Simultaneous;
    hide Snapshot.ItemsOf;
    hide Snapshot.ReadRows;
    k := Snapshot.AcceptedSnapshotParses(t, arrivals, raw, stamps);
    var rows := R.Rows(t, arrivals, k);
    var parsed := R.Output(t, rows);
    if R.NoneRaises(t, rows) && forall p :: p in parsed ==> Presentable(p) {
      ParserOutputCanonicalises(t, raw, rows);
      OutputRises(t, raw, rows);
      CanonicalRowsLoad(parsed, cutoff);
      var kept := Freshness.KeptRows(CanonicalOf(Staging(parsed)), cutoff);
      if |kept| >= 50 { Freshness.RisingSelectionLoads(CanonicalOf(Staging(parsed)), cutoff, kept[|kept| - 50..]); }
    }
  }

  // ---- inputs at which the consumers refuse what the parser wrote ----

  /** When every line is a sample, so is every interval, in order. */
  lemma {:induction false} SamplesOf(t: R.Tools, arrivals: seq<R.Arrival>, n: nat)
    requires n <= |arrivals|
    requires forall i :: 0 <= i < n ==> R.ParseInterval(t, t.decode(arrivals[i].line)).Sample?
    ensures var parsed := R.Output(t, R.Rows(t, arrivals, n));
      && |parsed| == n
      && forall i :: 0 <= i < n ==>
           && parsed[i].wallNs == arrivals[i].wallNs
           && R.Sample(parsed[i].interval, parsed[i].shape, parsed[i].duration)
              == R.ParseInterval(t, t.decode(arrivals[i].line))
  {
    hide R.ParseInterval;
    if n > 0 {
      SamplesOf(t, arrivals, n - 1);
      assert R.Rows(t, arrivals, n)[..n - 1] == R.Rows(t, arrivals, n - 1);
    }
  }

  /** A capture whose lines are samples parses. */
  lemma SamplesParse(t: R.Tools, arrivals: seq<R.Arrival>)
    requires R.SoundArrivals(arrivals)
    requires forall i :: 0 <= i < |arrivals| ==> R.ParseInterval(t, t.decode(arrivals[i].line)).Sample?
    ensures R.Parses(t, R.Raw(arrivals), R.Rows(t, arrivals, |arrivals|))
  {
    hide R.ParseInterval;
    hide R.Parses;
    hide R.SoundArrivals;
    hide R.Raw;
    R.SuffixParses(t, arrivals, 0);
    var raw, rows := R.Raw(arrivals), R.Rows(t, arrivals, |arrivals|);
    assert |R.Raw(arrivals[..0])| == 0 by { R.NothingRaw(arrivals); }
    assert raw[0..] == raw && rows[0..] == rows;
  }

  /** A line reads as an interval of 0.2 s at 18000 kbit/s. */
  ghost predicate ReadAs(t: R.Tools, line: seq<byte>, from: nat, loss: nat) {
    && line != [] && from < 1_000_000_000 && loss < 1_000_000_000
    && t.interval(t.decode(line)) ==
       Some(R.Interval(Micro(from), Micro(from + 200000), 18000.0, None, Some(Micro(loss)), true))
  }

  /** It is recorded as it is read. */
  lemma RecordedAsRead(t: R.Tools, line: seq<byte>, from: nat, loss: nat)
    requires KeepsOrder(t) && ReadAs(t, line, from, loss)
    ensures R.ParseInterval(t, t.decode(line)) ==
      R.Sample(R.Interval(Micro(from), Micro(from + 200000), 18000.0, None, Some(Micro(loss)), true),
               R.CompleteInterval, 0.2)
  {
    assert Micro(18000000000) == 18000.0 && Micro(200000) == 0.2;
    assert Micro(from + 200000) - Micro(from) == 0.2;
    assert t.float(Micro(18000000000)) == Some(18000.0) && t.float(Micro(200000)) == Some(0.2);
  }

  /** Two successive intervals that arrive at the same wall-clock time pass capture, parser and
      canonicaliser; the freshness gate refuses the rows. */
  lemma EqualWallTimesAreRefused(t: R.Tools, first: seq<byte>, second: seq<byte>, cutoff: Option<int>)
    requires KeepsOrder(t) && Unsigned(t) && ReadAs(t, first, 1000000, 0) && ReadAs(t, second, 1200000, 0)
    ensures var arrivals := [R.Arrival(first, 1000, 1), R.Arrival(second, 1000, 2)];
      var parsed := R.Output(t, R.Rows(t, arrivals, 2));
      && R.SoundArrivals(arrivals) && R.Parses(t, R.Raw(arrivals), R.Rows(t, arrivals, 2))
      && AllCanonical(parsed) && Canonicalizer.OrderSound(Staging(parsed), |parsed|)
      && var canonical := CanonicalOf(Staging(parsed));
         |canonical| == 2 && !Freshness.RowsAccepted(canonical, cutoff, 2)
  {
    hide KeepsOrder;
    hide Unsigned;
    hide R.Output;
    hide R.Parses;
    hide R.ParseInterval;
    hide Canonicalizer.RowSound;
    hide Canonicalizer.OrderSound;
    hide Canonicalizer.CanonicalRowOf;
    hide Freshness.RowsAccepted;
    hide ReadAs;
    hide R.Raw;
    hide R.Rows;
    hide StagingOf;
    var arrivals := [R.Arrival(first, 1000, 1), R.Arrival(second, 1000, 2)];
    RecordedAsRead(t, first, 1000000, 0);
    RecordedAsRead(t, second, 1200000, 0);
    NotEmpty(t, first, 1000000, 0);
    NotEmpty(t, second, 1200000, 0);
    Landmarks();
    SamplesParse(t, arrivals);
    SamplesOf(t, arrivals, 2);
    var rows := R.Rows(t, arrivals, 2);
    var parsed := R.Output(t, rows);
    assert forall p :: p in parsed ==> Presentable(p);
    ParserOutputCanonicalises(t, R.Raw(arrivals), rows);
    SoundOutputRises(t, R.Raw(arrivals), rows);
    CanonicalRowsLoad(parsed, cutoff);
    assert parsed[0].wallNs == parsed[1].wallNs;
  }

  lemma NotEmpty(t: R.Tools, line: seq<byte>, from: nat, loss: nat)
    requires ReadAs(t, line, from, loss)
    ensures line != []
  {
  }

  lemma SoundOutputRises(t: R.Tools, raw: seq<byte>, rows: seq<R.Row>)
    requires R.Parses(t, raw, rows)
    ensures Rises(R.Output(t, rows))
  {
    hide R.Output;
    hide R.RowSound;
    hide R.NoneRaises;
    OutputRises(t, raw, rows);
  }

  /** A complete interval that reports a loss of 150 percent parses and has a class, and the schema of
      canonical rows refuses it. */
  lemma ExcessLossIsRefused(t: R.Tools, line: seq<byte>)
    requires KeepsOrder(t) && Unsigned(t) && ReadAs(t, line, 1000000, 150000000)
    ensures var arrivals := [R.Arrival(line, 1000, 1)];
      var parsed := R.Output(t, R.Rows(t, arrivals, 1));
      && R.SoundArrivals(arrivals) && R.Parses(t, R.Raw(arrivals), R.Rows(t, arrivals, 1)) && |parsed| == 1
      && Canonicalizer.BaseClass(StagingOf(parsed[0])).Some? && !Canonicalizer.RowSound(StagingOf(parsed[0]), [])
  {
    hide KeepsOrder;
    hide Unsigned;
    hide R.Output;
    hide R.Parses;
    hide R.ParseInterval;
    hide ReadAs;
    hide R.Raw;
    hide R.Rows;
    var arrivals := [R.Arrival(line, 1000, 1)];
    RecordedAsRead(t, line, 1000000, 150000000);
    NotEmpty(t, line, 1000000, 150000000);
    SamplesParse(t, arrivals);
    SamplesOf(t, arrivals, 1);
    assert Micro(150000000) == 150.0;
  }

  /** A partial interval too short for a float other than zero parses, and base_interval_class refuses
      it. */
  lemma VanishingPartialIsRefused(t: R.Tools, line: seq<byte>, tiny: real)
    requires KeepsOrder(t) && 0.0 < tiny < 0.1 && t.float(tiny) == Some(0.0) && line != []
    requires t.interval(t.decode(line)) == Some(R.Interval(0.0, tiny, 0.0, None, None, true))
    ensures var arrivals := [R.Arrival(line, 1000, 1)];
      var parsed := R.Output(t, R.Rows(t, arrivals, 1));
      && R.SoundArrivals(arrivals) && R.Parses(t, R.Raw(arrivals), R.Rows(t, arrivals, 1)) && |parsed| == 1
      && parsed[0].shape == R.PartialInterval && Canonicalizer.BaseClass(StagingOf(parsed[0])) == None
  {
    hide R.Output;
    hide R.Parses;
    hide R.Raw;
    hide R.Rows;
    var arrivals := [R.Arrival(line, 1000, 1)];
    Landmarks();
    assert t.float(Micro(0)) == Some(0.0);
    SamplesParse(t, arrivals);
    SamplesOf(t, arrivals, 1);
  }
}
