/** The precontrol freshness gate: selection of the latest 50 samples, its own window checks, and
    what they guarantee about the official evaluator run on the same samples. */
module Freshness {
  import opened Bytes
  import opened Decimals
  import opened Canonicalizer
  import opened Stationarity

  const REQUIRED_SAMPLES: nat := 50

  predicate InCutoff(r: Row, cutoff: Option<int>) { cutoff == None || r.timestampNs <= cutoff.value }

  /** The rows load_rows keeps. */
  predicate Kept(r: Row, cutoff: Option<int>) { r.intervalClass == Complete && InCutoff(r, cutoff) }

  function KeptRows(rows: seq<Row>, cutoff: Option<int>): seq<Row> {
    if rows == [] then []
    else
      KeptRows(rows[..|rows| - 1], cutoff) +
      if Kept(rows[|rows| - 1], cutoff) then [rows[|rows| - 1]] else []
  }

  predicate RowsAccepted(rows: seq<Row>, cutoff: Option<int>, n: nat)
    requires n <= |rows|
  {
    && (forall i :: 0 < i < n ==> rows[i - 1].timestampNs < rows[i].timestampNs)
    && (forall i :: 0 <= i < n && Kept(rows[i], cutoff) ==> rows[i].duration == PRIMARY_TS_S)
  }

  lemma KeptNext(rows: seq<Row>, cutoff: Option<int>, i: nat)
    requires i < |rows|
    ensures KeptRows(rows[..i + 1], cutoff) ==
            KeptRows(rows[..i], cutoff) + if Kept(rows[i], cutoff) then [rows[i]] else []
  {
    assert rows[..i + 1][..i] == rows[..i];
  }

  /** The checks on one row, after those on the rows before it. */
  predicate RowAccepted(rows: seq<Row>, cutoff: Option<int>, i: nat)
    requires i < |rows|
  {
    && (i > 0 ==> rows[i - 1].timestampNs < rows[i].timestampNs)
    && (Kept(rows[i], cutoff) ==> rows[i].duration == PRIMARY_TS_S)
  }

  lemma AcceptedNext(rows: seq<Row>, cutoff: Option<int>, i: nat)
    requires i < |rows| && RowsAccepted(rows, cutoff, i)
    ensures RowsAccepted(rows, cutoff, i + 1) <==> RowAccepted(rows, cutoff, i)
    ensures !RowAccepted(rows, cutoff, i) ==> !RowsAccepted(rows, cutoff, |rows|)
  {
  }

  /** load_rows; None is a FreshnessError. */
  method LoadRows(rows: seq<Row>, cutoff: Option<int>) returns (complete: Option<seq<Row>>)
    ensures complete == if RowsAccepted(rows, cutoff, |rows|) then Some(KeptRows(rows, cutoff)) else None
  {
    hide RowsAccepted;
    hide KeptRows;
    hide InCutoff;
    NothingLoaded(rows, cutoff);
    var kept: seq<Row> := [];
    var previous: Option<int> := None;
    var i := 0;
    while i < |rows|
      invariant 0 <= i <= |rows| && RowsAccepted(rows, cutoff, i)
      invariant kept == KeptRows(rows[..i], cutoff)
      invariant previous == if i == 0 then None else Some(rows[i - 1].timestampNs)
    {
      var row := rows[i];
      AcceptedNext(rows, cutoff, i);
      if previous.Some? && row.timestampNs <= previous.value { return None; }
      previous := Some(row.timestampNs);
      KeptNext(rows, cutoff, i);
      if row.intervalClass == Complete && InCutoff(row, cutoff) {
        if row.duration != PRIMARY_TS_S { return None; }
        kept := kept + [row];
      }
      i := i + 1;
    }
    assert rows[..i] == rows;
    return Some(kept);
  }

  lemma NothingLoaded(rows: seq<Row>, cutoff: Option<int>)
    ensures RowsAccepted(rows, cutoff, 0) && KeptRows(rows[..0], cutoff) == []
  {
  }

  /** validate_window: here without tolerance. */
  predicate WindowAccepted(w: seq<Row>) {
    && |w| == WINDOW_SAMPLES
    && (forall i :: 0 < i < |w| ==> w[i - 1].end == w[i].start)
    && w[|w| - 1].end - w[0].start == WINDOW_S
  }

  method ValidateWindow(w: seq<Row>) returns (ok: bool)
    ensures ok <==> WindowAccepted(w)
  {
    if |w| != WINDOW_SAMPLES { return false; }
    var i := 1;
    while i < |w|
      invariant 1 <= i <= |w|
      invariant forall k :: 0 < k < i ==> w[k - 1].end == w[k].start
    {
      if w[i - 1].end != w[i].start { return false; }
      i := i + 1;
    }
    return w[|w| - 1].end - w[0].start == WINDOW_S;
  }

  /** What main checks of the 50 selected rows before it hands them to the evaluator. */
  predicate SelectionAccepted(s: seq<Row>) {
    && |s| == REQUIRED_SAMPLES
    && (forall i :: 0 <= i < |s| ==> s[i].intervalClass == Complete && s[i].duration == PRIMARY_TS_S)
    && WindowAccepted(s[..25]) && WindowAccepted(s[25..]) && s[24].end == s[25].start
  }

  /** The selection's checks as one condition on its rows. */
  lemma SelectionMeans(s: seq<Row>)
    ensures SelectionAccepted(s) <==>
      && |s| == 50
      && (forall i :: 0 <= i < 50 ==> s[i].intervalClass == Complete && s[i].duration == 0.2)
      && (forall i :: 0 < i < 50 ==> s[i - 1].end == s[i].start)
      && s[24].end == s[0].start + 5.0 && s[49].end == s[0].start + 10.0
  {
    if |s| == 50 {
      assert s[..25][0] == s[0] && s[..25][24] == s[24] && s[25..][0] == s[25] && s[25..][24] == s[49];
      if WindowAccepted(s[25..]) {
        forall i | 25 < i < 50 ensures s[i - 1].end == s[i].start {
          assert s[25..][i - 26].end == s[25..][i - 25].start;
        }
      }
      if WindowAccepted(s[..25]) {
        forall i | 0 < i < 25 ensures s[i - 1].end == s[i].start { assert s[..25][i - 1].end == s[..25][i].start; }
      }
    }
  }

  /** The rows kept are the complete ones up to the cutoff. */
  lemma {:induction false} KeptAre(rows: seq<Row>, cutoff: Option<int>, r: Row)
    ensures r in KeptRows(rows, cutoff) <==>
      r in rows && r.intervalClass == Complete && (cutoff.Some? ==> r.timestampNs <= cutoff.value)
  {
    if rows != [] {
      var front, last := rows[..|rows| - 1], rows[|rows| - 1];
      KeptAre(front, cutoff, r);
      assert rows == front + [last];
    }
  }

  /** The selection of main; None is a FreshnessError. */
  method Select(rows: seq<Row>, cutoff: Option<int>) returns (selected: Option<seq<Row>>)
    ensures selected.Some? ==>
      && RowsAccepted(rows, cutoff, |rows|)
      && SelectionAccepted(selected.value)
      && var kept := KeptRows(rows, cutoff);
         |kept| >= 50 && selected.value == kept[|kept| - 50..]
    ensures selected == None && RowsAccepted(rows, cutoff, |rows|) && |KeptRows(rows, cutoff)| >= 50 ==>
      !SelectionAccepted(KeptRows(rows, cutoff)[|KeptRows(rows, cutoff)| - 50..])
  {
    var complete := LoadRows(rows, cutoff);
    if complete == None || |complete.value| < REQUIRED_SAMPLES { return None; }
    var s := complete.value[|complete.value| - REQUIRED_SAMPLES..];
    KeptAreComplete(rows, cutoff);
    var ok1 := ValidateWindow(s[..25]);
    var ok2 := ValidateWindow(s[25..]);
    if !ok1 || !ok2 || s[24].end != s[25].start { return None; }
    return Some(s);
  }

  lemma {:induction false} KeptAreComplete(rows: seq<Row>, cutoff: Option<int>)
    requires RowsAccepted(rows, cutoff, |rows|)
    ensures forall r :: r in KeptRows(rows, cutoff) ==> r.intervalClass == Complete && r.duration == PRIMARY_TS_S
    ensures forall r :: r in KeptRows(rows, cutoff) ==> r in rows
  {
    hide InCutoff;
    if rows != [] {
      var front, last := rows[..|rows| - 1], rows[|rows| - 1];
      FrontAccepted(rows, cutoff);
      KeptAreComplete(front, cutoff);
      assert rows == front + [last];
      hide RowsAccepted;
    }
  }

  lemma FrontAccepted(rows: seq<Row>, cutoff: Option<int>)
    requires rows != [] && RowsAccepted(rows, cutoff, |rows|)
    ensures RowsAccepted(rows[..|rows| - 1], cutoff, |rows| - 1)
    ensures Kept(rows[|rows| - 1], cutoff) ==> rows[|rows| - 1].duration == PRIMARY_TS_S
  {
    hide InCutoff;
    var front := rows[..|rows| - 1];
    assert forall i :: 0 <= i < |front| ==> front[i] == rows[i];
  }

  // ---- the evaluator on the selection ----

  /** The checks of load_intervals: record ids differ, the wall clock never goes back and the
      monotonic clock advances. */
  predicate Loadable(rows: seq<Row>, n: nat)
    requires n <= |rows|
  {
    && (forall i, j :: 0 <= i < j < n ==> rows[i].recordId != rows[j].recordId)
    && (forall i :: 0 < i < n ==> rows[i - 1].wallNs <= rows[i].wallNs && rows[i - 1].monoNs < rows[i].monoNs)
  }

  /** load_intervals; false is a StationarityError. */
  method LoadIntervals(rows: seq<Row>) returns (ok: bool)
    ensures ok <==> rows != [] && Loadable(rows, |rows|)
    ensures ok <==>
      && rows != [] && (forall i, j :: 0 <= i < j < |rows| ==> rows[i].recordId != rows[j].recordId)
      && (forall i :: 0 < i < |rows| ==> rows[i].wallNs >= rows[i - 1].wallNs && rows[i].monoNs > rows[i - 1].monoNs)
  {
    if rows == [] { return false; }
    var seen: set<nat> := {};
    var i := 0;
    while i < |rows|
      invariant 0 <= i <= |rows| && Loadable(rows, i)
      invariant forall id :: id in seen <==> exists k :: 0 <= k < i && rows[k].recordId == id
    {
      if rows[i].recordId in seen { return false; }
      seen := seen + {rows[i].recordId};
      if i > 0 && (rows[i].wallNs < rows[i - 1].wallNs || rows[i].monoNs <= rows[i - 1].monoNs) { return false; }
      i := i + 1;
    }
    return true;
  }

  /** The selected rows are one eligible run, so the evaluator's windows are the gate's windows. */
  lemma SelectionIsOneRun(s: seq<Row>)
    requires SelectionAccepted(s)
    ensures NoneRaise(s, InitialPreStep) && LastBlock(s, InitialPreStep, 50, 0, 50)
    ensures Geometry(s[..25]) && Geometry(s[25..])
  {
    forall i | 0 < i < 50 ensures s[i - 1].end == s[i].start {
      if i < 25 { assert s[..25][i - 1].end == s[..25][i].start; }
      if i > 25 { assert s[25..][i - 26].end == s[25..][i - 25].start; }
    }
  }

  /** The window-binding check and the six gates of main. */
  predicate BindingPass(s: seq<Row>, report: Report)
    requires |s| == 50
  {
    && report.Report?
    && report.w1.firstId == s[0].recordId && report.w1.lastId == s[24].recordId
    && report.w2.firstId == s[25].recordId && report.w2.lastId == s[49].recordId
  }

  /** Whenever the evaluator returns on the 50 checked rows it measured exactly the gate's two
      windows, so the binding check passes. It fails to return only when its loader refuses the
      rows or a mean is not positive: the geometry the gate checked exactly is within the
      evaluator's tolerance. */
  method EvaluateSelection(s: seq<Row>) returns (report: Option<Report>)
    requires SelectionAccepted(s)
    ensures report.Some? ==> BindingPass(s, report.value)
    ensures report.Some? ==>
      && report.value.cv1 == CvWithin(Mean(s[..25]), Variance(s[..25]))
      && report.value.cv2 == CvWithin(Mean(s[25..]), Variance(s[25..]))
      && (report.value.shift <==> 0.95 * Mean(s[..25]) <= Mean(s[25..]) <= 1.05 * Mean(s[..25]))
      && report.value.duration == (s[49].end >= 11.0)
    ensures report == None <==> !Loadable(s, |s|) || Mean(s[..25]) <= 0.0 || Mean(s[25..]) <= 0.0
  {
    hide Mean;
    hide Variance;
    hide CvWithin;
    hide Geometry;
    hide LastBlock;
    hide LatestRun;
    hide SelectionAccepted;
    hide Loadable;
    SelectionLength(s);
    SelectionIsLatestRun(s);
    var loaded := LoadIntervals(s);
    if !loaded { return None; }
    report := Evaluate(s, InitialPreStep);
  }

  lemma SelectionIsLatestRun(s: seq<Row>)
    requires SelectionAccepted(s)
    ensures NoneRaise(s, InitialPreStep) && LatestRun(s, InitialPreStep) == s
    ensures |s| == 50 && W1(s) == s[..25] && W2(s) == s[25..] && Geometry(s[..25]) && Geometry(s[25..])
  {
    hide LastBlock;
    hide RunStart;
    hide RunEnd;
    hide Geometry;
    SelectionIsOneRun(s);
    LatestRunIsLastBlock(s, InitialPreStep);
    var a, b := RunStart(s, InitialPreStep), RunEnd(s, InitialPreStep, 50);
    LastBlockUnique(s, InitialPreStep, a, b, 0, 50);
    assert s[0..50] == s;
  }

  lemma SelectionLength(s: seq<Row>)
    requires SelectionAccepted(s)
    ensures |s| == 50
  {
  }

  // ---- rows that come from the canonicaliser ----

  /** Record ids and the monotonic clock rise, the wall clock does not fall. */
  predicate Rising(rows: seq<Row>) {
    forall i, j :: 0 <= i < j < |rows| ==>
      rows[i].recordId < rows[j].recordId && rows[i].wallNs <= rows[j].wallNs && rows[i].monoNs < rows[j].monoNs
  }

  /** A row comes after all of these. */
  predicate Follows(rows: seq<Row>, r: Row) {
    forall q :: q in rows ==> q.recordId < r.recordId && q.wallNs <= r.wallNs && q.monoNs < r.monoNs
  }

  lemma {:induction false} KeptRise(rows: seq<Row>, cutoff: Option<int>)
    requires Rising(rows)
    ensures Rising(KeptRows(rows, cutoff))
    ensures forall r :: r in KeptRows(rows, cutoff) ==> r in rows
  {
    hide Kept;
    if rows != [] {
      var front, last := rows[..|rows| - 1], rows[|rows| - 1];
      KeptRise(front, cutoff);
      assert rows == front + [last];
      assert Follows(front, last);
      assert Follows(KeptRows(front, cutoff), last);
      assert forall k :: 0 <= k < |KeptRows(front, cutoff)| ==> KeptRows(front, cutoff)[k] in KeptRows(front, cutoff);
    }
  }

  /** The evaluator's loader accepts every selection from rising rows: there only a mean that is not
      positive makes the gate fail. */
  lemma RisingSelectionLoads(rows: seq<Row>, cutoff: Option<int>, s: seq<Row>)
    requires Rising(rows) && |KeptRows(rows, cutoff)| >= 50
    requires s == KeptRows(rows, cutoff)[|KeptRows(rows, cutoff)| - 50..]
    ensures |s| == 50 && Loadable(s, |s|)
  {
    hide KeptRows;
    KeptRise(rows, cutoff);
  }

  // ---- the minimum phase duration ----

  function GridPoint(k: int): real { k as real * 0.2 }

  /** Interval bounds on the 0.2 s grid. */
  ghost predicate OnGrid(x: real) { exists k :: x == GridPoint(k) }

  lemma GridStep(m: int, k: int)
    requires GridPoint(k) > 1.000001 && Abs(GridPoint(k) - GridPoint(m) - 0.2) <= TOLERANCE_S
    ensures k >= 6 && k == m + 1
  {
    var d := k - m;
    assert GridPoint(k) - GridPoint(m) == d as real * 0.2;
  }

  /** When the first selected interval lies behind the startup guard and on the 0.2 s grid, the
      eleven-second minimum holds as well. */
  lemma ElevenSeconds(s: seq<Row>)
    requires SelectionAccepted(s)
    requires s[0].end > STARTUP_GUARD_S + TOLERANCE_S && OnGrid(s[0].start) && OnGrid(s[0].end)
    requires Abs(s[0].end - s[0].start - PRIMARY_TS_S) <= TOLERANCE_S
    ensures s[49].end >= INITIAL_PRE_MINIMUM_S
  {
    var m :| s[0].start == GridPoint(m);
    var k :| s[0].end == GridPoint(k);
    GridStep(m, k);
    assert s[0].start >= 1.0;
    assert s[..25][0] == s[0] && s[..25][24] == s[24] && s[25..][0] == s[25] && s[25..][24] == s[49];
  }

  /** Rows that come from the canonicaliser are behind the guard: the selection's first row is. */
  lemma SelectedAreBehindGuard(staging: seq<StagingRow>, times: seq<int>, i: nat)
    requires i < |staging| && RowSound(staging[i], times) && CanonicalRowOf(staging[i], times).intervalClass == Complete
    ensures CanonicalRowOf(staging[i], times).end > STARTUP_GUARD_S + TOLERANCE_S
  {
    if times != [] { ClassesMean(staging[i], times); }
  }

  // ---- admission ----

  /** main's verdict on the selected rows; None is a FreshnessError. */
  method Admit(s: seq<Row>, decisionNs: int, maxAgeNs: int) returns (admitted: Option<bool>)
    requires SelectionAccepted(s)
    ensures admitted.Some? <==> Loadable(s, |s|) && Mean(s[..25]) > 0.0 && Mean(s[25..]) > 0.0
    ensures admitted.Some? ==>
      (admitted.value <==>
        && CvWithin(Mean(s[..25]), Variance(s[..25])) && CvWithin(Mean(s[25..]), Variance(s[25..]))
        && 0.95 * Mean(s[..25]) <= Mean(s[25..]) <= 1.05 * Mean(s[..25])
        && s[49].end >= 11.0 && 0 <= decisionNs - s[49].timestampNs <= maxAgeNs)
  {
    hide Mean;
    hide Variance;
    hide CvWithin;
    hide SelectionAccepted;
    hide Loadable;
    SelectionLength(s);
    var report := EvaluateSelection(s);
    if report == None { return None; }
    var r := report.value;
    var binding := r.Report? && r.w1.firstId == s[0].recordId && r.w1.lastId == s[24].recordId
                   && r.w2.firstId == s[25].recordId && r.w2.lastId == s[49].recordId;
    var age := decisionNs - s[49].timestampNs;
    return Some(binding && r.cv1 && r.cv2 && r.shift && r.duration && 0 <= age <= maxAgeNs);
  }
}
