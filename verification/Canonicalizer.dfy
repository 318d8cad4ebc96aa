/** The canonicaliser: the class of each receiver interval with respect to the actuator timeline. */
module Canonicalizer {
  import opened Bytes
  import opened Decimals

  const STARTUP_GUARD_S: real := 1.0

  datatype Shape = CompleteShape | PartialShape | OtherShape

  /** A staging row, as far as classification and the schema of canonical rows read it. */
  datatype StagingRow = StagingRow(
    sequence: nat, shape: Shape, start: real, end: real, duration: real, throughput: real,
    jitter: Option<real>, loss: Option<real>, wallNs: int, monoNs: int)

  datatype Class = StartupGuard | Complete | PartialTerminal | TransitionCrossing

  datatype CanonicalRow = CanonicalRow(
    recordId: nat, timestampNs: int, wallNs: int, monoNs: int,
    start: real, end: real, duration: real, throughput: real, intervalClass: Class)

  /** exact_duration_ns: a positive duration that is a whole number of nanoseconds. */
  function ExactNs(seconds: real): Option<int> {
    var scaled := seconds * 1000000000.0;
    if seconds <= 0.0 || scaled.Floor as real != scaled then None else Some(scaled.Floor)
  }

  /** base_interval_class; None is a CanonicalizationError. */
  function BaseClass(r: StagingRow): Option<Class> {
    match r.shape
    case PartialShape => if 0.0 < r.duration < PRIMARY_TS_S then Some(PartialTerminal) else None
    case OtherShape => None
    case CompleteShape =>
      if Abs(r.duration - PRIMARY_TS_S) > TOLERANCE_S then None
      else if r.end <= STARTUP_GUARD_S + TOLERANCE_S then Some(StartupGuard)
      else Some(Complete)
  }

  /** The observed interval in wall-clock nanoseconds. */
  function ObservedStart(r: StagingRow): int
    requires ExactNs(r.duration).Some?
  {
    r.wallNs - ExactNs(r.duration).value
  }

  predicate StrictlyInside(r: StagingRow, time: int)
    requires ExactNs(r.duration).Some?
  {
    ObservedStart(r) < time < r.wallNs
  }

  /** The applied times strictly inside the observed interval, in order. */
  function Hits(r: StagingRow, times: seq<int>): (hits: seq<int>)
    requires ExactNs(r.duration).Some?
    ensures forall t :: t in hits <==> t in times && StrictlyInside(r, t)
  {
    if times == [] then []
    else
      var front, t := times[..|times| - 1], times[|times| - 1];
      assert times == front + [t];
      Hits(r, front) + if StrictlyInside(r, t) then [t] else []
  }

  /** classify_interval */
  function Classify(r: StagingRow, times: seq<int>): Option<Class> {
    match BaseClass(r)
    case None => None
    case Some(base) =>
      if times == [] then Some(base)
      else if r.wallNs <= 0 || ExactNs(r.duration) == None || ObservedStart(r) < 0 then None
      else
        var hits := Hits(r, times);
        if |hits| > 1 then None
        else if hits == [] then Some(base)
        else if base == Complete then Some(TransitionCrossing)
        else None
  }

  /** A row classified complete is no transition: no applied time lies strictly inside it, and it
      ends after the startup guard. A crossing row has exactly one applied time inside. */
  lemma ClassesMean(r: StagingRow, times: seq<int>)
    requires Classify(r, times).Some? && times != []
    ensures ExactNs(r.duration).Some?
    ensures Classify(r, times).value != TransitionCrossing ==> forall t :: t in times ==> !StrictlyInside(r, t)
    ensures Classify(r, times).value == Complete ==> r.end > STARTUP_GUARD_S + TOLERANCE_S
    ensures Classify(r, times).value == TransitionCrossing ==>
      |Hits(r, times)| == 1 && Hits(r, times)[0] in times && StrictlyInside(r, Hits(r, times)[0])
  {
    var hits := Hits(r, times);
    if hits == [] {
      assert forall t :: t in hits <==> t in times && StrictlyInside(r, t);
    } else {
      assert hits[0] in hits;
    }
  }

  /** A time lies strictly inside the observed interval, which ends when the row was received. */
  predicate Inside(r: StagingRow, time: int) {
    r.wallNs as real - 1000000000.0 * r.duration < time as real && time < r.wallNs
  }

  predicate NoneInside(r: StagingRow, times: seq<int>) { forall i :: 0 <= i < |times| ==> !Inside(r, times[i]) }

  predicate OneInside(r: StagingRow, times: seq<int>) {
    forall i, j :: 0 <= i < j < |times| ==> !(Inside(r, times[i]) && Inside(r, times[j]))
  }

  lemma {:induction false} HitsAre(r: StagingRow, times: seq<int>)
    requires ExactNs(r.duration).Some?
    ensures Hits(r, times) == [] <==> NoneInside(r, times)
    ensures |Hits(r, times)| <= 1 <==> OneInside(r, times)
  {
    if times != [] {
      var front, t := times[..|times| - 1], times[|times| - 1];
      HitsAre(r, front);
      assert StrictlyInside(r, t) <==> Inside(r, t);
      assert times == front + [t];
    }
  }

  /** The classes in numbers. A row has one exactly when its duration suits its shape and, if there is a
      timeline, it was observed over a whole number of nanoseconds from time zero on, and at most one
      applied time lies inside, and that only if it is complete and behind the startup guard. */
  lemma ClassesAre(r: StagingRow, times: seq<int>)
    ensures var guarded := r.shape == CompleteShape && r.end <= 1.000001;
      var complete := r.shape == CompleteShape && r.end > 1.000001;
      var verdict := Classify(r, times);
      && (verdict.Some? <==>
            && r.shape != OtherShape
            && (r.shape == PartialShape ==> 0.0 < r.duration < 0.2)
            && (r.shape == CompleteShape ==> 0.199999 <= r.duration <= 0.200001)
            && (times != [] ==>
                  && r.wallNs > 0 && ExactNs(r.duration).Some? && r.wallNs as real >= 1000000000.0 * r.duration
                  && OneInside(r, times) && (complete || NoneInside(r, times))))
      && (verdict == Some(PartialTerminal) ==> r.shape == PartialShape)
      && (verdict == Some(StartupGuard) ==> guarded)
      && (verdict == Some(Complete) ==> complete && NoneInside(r, times))
      && (verdict == Some(TransitionCrossing) ==> complete && !NoneInside(r, times))
  {
    if times != [] && ExactNs(r.duration).Some? { HitsAre(r, times); }
  }

  /** Crossing rows whose observed intervals do not overlap cross different applied events. */
  lemma CrossingsAreInjective(a: StagingRow, b: StagingRow, times: seq<int>)
    requires times != []
    requires Classify(a, times) == Some(TransitionCrossing) && Classify(b, times) == Some(TransitionCrossing)
    requires ExactNs(b.duration).Some? && a.wallNs <= ObservedStart(b)
    ensures ExactNs(a.duration).Some? && |Hits(a, times)| == 1 && |Hits(b, times)| == 1
    ensures Hits(a, times)[0] < Hits(b, times)[0]
    ensures Hits(a, times)[0] in times && Hits(b, times)[0] in times
  {
    ClassesMean(a, times);
    ClassesMean(b, times);
  }

  // ---- the loop ----

  /** The order main demands of the staging rows. */
  predicate OrderSound(rows: seq<StagingRow>, n: nat)
    requires n <= |rows|
  {
    forall i :: 0 < i < n ==> rows[i].wallNs >= rows[i - 1].wallNs && rows[i].monoNs > rows[i - 1].monoNs
  }

  /** What the iperfInterval schema demands of the numbers of a canonical row. */
  predicate SchemaAccepts(r: StagingRow, c: Class) {
    && 0.0 <= r.start && 0.0 < r.end && 0.0 <= r.throughput
    && (r.jitter.Some? ==> 0.0 <= r.jitter.value)
    && (r.loss.Some? ==> 0.0 <= r.loss.value <= 100.0)
    && if c == PartialTerminal then 0.0 < r.duration < PRIMARY_TS_S else r.duration == PRIMARY_TS_S
  }

  predicate RowSound(r: StagingRow, times: seq<int>) {
    r.wallNs > 0 && r.monoNs > 0 && Classify(r, times).Some? && SchemaAccepts(r, Classify(r, times).value)
  }

  function CanonicalRowOf(r: StagingRow, times: seq<int>): CanonicalRow
    requires RowSound(r, times)
  {
    CanonicalRow(r.sequence, r.wallNs, r.wallNs, r.monoNs, r.start, r.end, r.duration, r.throughput,
                 Classify(r, times).value)
  }

  /** main from the staging rows to the canonical rows; None is a CanonicalizationError or a schema error. */
  method Canonicalize(rows: seq<StagingRow>, times: seq<int>) returns (canonical: Option<seq<CanonicalRow>>)
    ensures canonical.Some? <==> OrderSound(rows, |rows|) && forall i :: 0 <= i < |rows| ==> RowSound(rows[i], times)
    ensures canonical.Some? ==>
      && |canonical.value| == |rows|
      && forall i :: 0 <= i < |rows| ==>
           RowSound(rows[i], times) && canonical.value[i] == CanonicalRowOf(rows[i], times)
    ensures canonical.Some? ==>
      forall i :: 0 <= i < |rows| ==>
        var row, c := rows[i], canonical.value[i];
        && c.recordId == row.sequence && c.timestampNs == c.wallNs == row.wallNs && c.monoNs == row.monoNs
        && c.start == row.start && c.end == row.end && c.duration == row.duration && c.throughput == row.throughput
  {
    hide Classify;
    hide SchemaAccepts;
    var built: seq<CanonicalRow> := [];
    var previous: Option<StagingRow> := None;
    var i := 0;
    while i < |rows|
      invariant 0 <= i <= |rows| == |rows|
      invariant OrderSound(rows, i) && |built| == i
      invariant forall k :: 0 <= k < i ==> RowSound(rows[k], times) && built[k] == CanonicalRowOf(rows[k], times)
      invariant previous == if i == 0 then None else Some(rows[i - 1])
    {
      var row := rows[i];
      if previous.Some? && (row.wallNs < previous.value.wallNs || row.monoNs <= previous.value.monoNs) { return None; }
      var intervalClass := Classify(row, times);
      if row.wallNs <= 0 || row.monoNs <= 0 || intervalClass == None { return None; }
      if !SchemaAccepts(row, intervalClass.value) { return None; }
      built := built + [CanonicalRow(row.sequence, row.wallNs, row.wallNs, row.monoNs, row.start, row.end, row.duration,
                                     row.throughput, intervalClass.value)];
      previous := Some(row);
      i := i + 1;
    }
    return Some(built);
  }
}
