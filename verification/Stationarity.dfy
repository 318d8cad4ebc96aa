/** The stationarity evaluator: the latest eligible run, its last two windows, and the gates. */
module Stationarity {
  import opened Bytes
  import opened Decimals
  import opened Canonicalizer

  type Row = CanonicalRow

  const WINDOW_SAMPLES: nat := 25
  const WINDOW_S: real := 5.0
  const INITIAL_PRE_MINIMUM_S: real := 11.0
  const POST_MINIMUM_NS: int := 10_000_000_000

  /** The transition origin is only used after a step. */
  datatype Mode = InitialPreStep | PostStep(t0Ns: int)

  predicate IsComplete(r: Row) { r.intervalClass == Complete && Abs(r.duration - PRIMARY_TS_S) <= TOLERANCE_S }

  /** observed_bounds raises when the duration is no whole number of nanoseconds or the interval
      would start before time zero. */
  predicate HasBounds(r: Row) { ExactNs(r.duration).Some? && r.wallNs - ExactNs(r.duration).value >= 0 }

  function StartNs(r: Row): int
    requires HasBounds(r)
  {
    r.wallNs - ExactNs(r.duration).value
  }

  /** Asking whether the row is eligible raises. */
  predicate Raises(r: Row, mode: Mode) { IsComplete(r) && mode.PostStep? && !HasBounds(r) }

  predicate Eligible(r: Row, mode: Mode)
    requires !Raises(r, mode)
  {
    IsComplete(r) && (mode.PostStep? ==> StartNs(r) >= mode.t0Ns)
  }

  predicate Contiguous(previous: Row, current: Row) { Abs(current.start - previous.end) <= TOLERANCE_S }

  predicate NoneRaise(rows: seq<Row>, mode: Mode) { forall i :: 0 <= i < |rows| ==> !Raises(rows[i], mode) }

  // ---- the latest eligible run ----

  /** rows[a..b] is a block of consecutive eligible contiguous rows. */
  predicate Block(rows: seq<Row>, mode: Mode, a: nat, b: nat)
    requires NoneRaise(rows, mode) && a <= b <= |rows|
  {
    && (forall i :: a <= i < b ==> Eligible(rows[i], mode))
    && (forall i :: a < i < b ==> Contiguous(rows[i - 1], rows[i]))
  }

  /** It cannot be extended to the left. */
  predicate LeftMaximal(rows: seq<Row>, mode: Mode, a: nat)
    requires NoneRaise(rows, mode) && a < |rows|
  {
    a > 0 ==> !Eligible(rows[a - 1], mode) || !Contiguous(rows[a - 1], rows[a])
  }

  predicate NoneEligible(rows: seq<Row>, mode: Mode, b: nat, n: nat)
    requires NoneRaise(rows, mode) && n <= |rows|
  {
    forall i :: b <= i < n ==> !Eligible(rows[i], mode)
  }

  /** The last maximal block of the first n rows: nothing eligible comes after it, and it is empty
      only when nothing is eligible at all. */
  predicate LastBlock(rows: seq<Row>, mode: Mode, n: nat, a: nat, b: nat)
    requires NoneRaise(rows, mode) && a <= b <= n <= |rows|
  {
    && Block(rows, mode, a, b)
    && (a < b ==> LeftMaximal(rows, mode, a))
    && NoneEligible(rows, mode, b, n)
    && (a == b ==> NoneEligible(rows, mode, 0, n))
  }

  /** Where the latest run ends: after the last eligible of the first n rows. */
  function RunEnd(rows: seq<Row>, mode: Mode, n: nat): (b: nat)
    requires NoneRaise(rows, mode) && n <= |rows|
    ensures b <= n && NoneEligible(rows, mode, b, n) && (b > 0 ==> Eligible(rows[b - 1], mode))
  {
    if n == 0 || Eligible(rows[n - 1], mode) then n else RunEnd(rows, mode, n - 1)
  }

  /** Where the block that ends after row b - 1 starts. */
  function BlockStart(rows: seq<Row>, mode: Mode, b: nat): (a: nat)
    requires NoneRaise(rows, mode) && 0 < b <= |rows| && Eligible(rows[b - 1], mode)
    ensures a < b && Block(rows, mode, a, b) && LeftMaximal(rows, mode, a)
  {
    if b > 1 && Eligible(rows[b - 2], mode) && Contiguous(rows[b - 2], rows[b - 1]) then BlockStart(rows, mode, b - 1)
    else b - 1
  }

  function RunStart(rows: seq<Row>, mode: Mode): (a: nat)
    requires NoneRaise(rows, mode)
    ensures a <= RunEnd(rows, mode, |rows|)
  {
    var b := RunEnd(rows, mode, |rows|);
    if b == 0 then 0 else BlockStart(rows, mode, b)
  }

  /** The latest eligible run. */
  function LatestRun(rows: seq<Row>, mode: Mode): seq<Row>
    requires NoneRaise(rows, mode)
  {
    rows[RunStart(rows, mode)..RunEnd(rows, mode, |rows|)]
  }

  /** It is the last maximal block of consecutive eligible contiguous rows. */
  lemma LatestRunIsLastBlock(rows: seq<Row>, mode: Mode)
    requires NoneRaise(rows, mode)
    ensures LastBlock(rows, mode, |rows|, RunStart(rows, mode), RunEnd(rows, mode, |rows|))
  {
    hide Eligible;
    hide Contiguous;
  }

  /** The scan has seen n rows and the last block so far is rows[a..b]. */
  predicate Scanned(rows: seq<Row>, mode: Mode, n: nat, a: nat, b: nat)
    requires a <= b <= n <= |rows|
  {
    && NoneRaise(rows[..n], mode) && LastBlock(rows[..n], mode, n, a, b)
  }

  lemma ScanSkips(rows: seq<Row>, mode: Mode, n: nat, a: nat, b: nat)
    requires a <= b <= n < |rows| && Scanned(rows, mode, n, a, b)
    requires !Raises(rows[n], mode) && !Eligible(rows[n], mode)
    ensures Scanned(rows, mode, n + 1, a, b)
  {
    hide Raises;
    hide Eligible;
    hide Contiguous;
    assert rows[..n + 1] == rows[..n] + [rows[n]];
  }

  lemma ScanExtends(rows: seq<Row>, mode: Mode, n: nat, a: nat)
    requires a < n < |rows| && Scanned(rows, mode, n, a, n)
    requires !Raises(rows[n], mode) && Eligible(rows[n], mode) && Contiguous(rows[n - 1], rows[n])
    ensures Scanned(rows, mode, n + 1, a, n + 1)
  {
    hide Raises;
    hide Eligible;
    hide Contiguous;
    assert rows[..n + 1] == rows[..n] + [rows[n]];
  }

  lemma ScanStarts(rows: seq<Row>, mode: Mode, n: nat, a: nat, b: nat)
    requires a <= b <= n < |rows| && Scanned(rows, mode, n, a, b)
    requires !Raises(rows[n], mode) && Eligible(rows[n], mode)
    requires n == 0 || b < n || !Contiguous(rows[n - 1], rows[n])
    ensures Scanned(rows, mode, n + 1, n, n + 1)
  {
    hide Raises;
    hide Eligible;
    hide Contiguous;
    assert rows[..n + 1] == rows[..n] + [rows[n]];
  }

  /** latest_eligible_run; None is a StationarityError. */
  method LatestEligibleRun(rows: seq<Row>, mode: Mode) returns (run: Option<seq<Row>>)
    ensures run.Some? <==> NoneRaise(rows, mode)
    ensures run.Some? ==> run.value == LatestRun(rows, mode)
  {
    hide Eligible;
    hide Raises;
    hide Contiguous;
    hide Scanned;
    hide LastBlock;
    hide RunStart;
    hide RunEnd;
    var runs: seq<seq<Row>> := [];
    var current: seq<Row> := [];
    ghost var a, b := 0, 0;
    NothingScanned(rows, mode);
    var i := 0;
    while i < |rows|
      invariant 0 <= a <= b <= i <= |rows| && Scanned(rows, mode, i, a, b)
      invariant current != [] ==> a < b == i && current == rows[a..b]
      invariant current == [] && runs != [] ==> a < b && runs[|runs| - 1] == rows[a..b]
      invariant current == [] && runs == [] ==> a == b
      invariant current == [] && i > 0 ==> b < i
    {
      var row := rows[i];
      if Raises(row, mode) { return None; }
      if !Eligible(row, mode) {
        ScanSkips(rows, mode, i, a, b);
        if current != [] {
          runs := runs + [current];
          current := [];
        }
      } else {
        if current != [] && !Contiguous(current[|current| - 1], row) {
          runs := runs + [current];
          current := [];
        }
        if current == [] {
          ScanStarts(rows, mode, i, a, b);
          a := i;
        } else {
          ScanExtends(rows, mode, i, a);
        }
        SliceNext(rows, a, i);
        current := current + [row];
        b := i + 1;
      }
      i := i + 1;
    }
    if current != [] { runs := runs + [current]; }
    AllScanned(rows, mode, a, b);
    LatestRunIsLastBlock(rows, mode);
    LastBlockUnique(rows, mode, a, b, RunStart(rows, mode), RunEnd(rows, mode, |rows|));
    if runs == [] {
      assert rows[a..b] == [];
      return Some([]);
    }
    return Some(runs[|runs| - 1]);
  }

  lemma SliceNext(rows: seq<Row>, a: nat, i: nat)
    requires a <= i < |rows|
    ensures rows[a..i + 1] == rows[a..i] + [rows[i]]
  {
  }

  lemma NothingScanned(rows: seq<Row>, mode: Mode)
    ensures Scanned(rows, mode, 0, 0, 0)
  {
  }

  lemma AllScanned(rows: seq<Row>, mode: Mode, a: nat, b: nat)
    requires a <= b <= |rows| && Scanned(rows, mode, |rows|, a, b)
    ensures NoneRaise(rows, mode) && LastBlock(rows, mode, |rows|, a, b)
  {
    assert rows[..|rows|] == rows;
  }

  // ---- windows ----

  predicate AllComplete(w: seq<Row>) { forall i :: 0 <= i < |w| ==> IsComplete(w[i]) }

  predicate AllContiguous(w: seq<Row>) { forall i :: 0 < i < |w| ==> Contiguous(w[i - 1], w[i]) }

  /** validate_window_geometry */
  predicate Geometry(w: seq<Row>) {
    && |w| == WINDOW_SAMPLES && AllComplete(w) && AllContiguous(w)
    && Abs(w[|w| - 1].end - w[0].start - WINDOW_S) <= TOLERANCE_S
  }

  function Sum(w: seq<Row>): real { if w == [] then 0.0 else Sum(w[..|w| - 1]) + w[|w| - 1].throughput }

  function SquaredDeviations(w: seq<Row>, mean: real): real {
    if w == [] then 0.0
    else
      SquaredDeviations(w[..|w| - 1], mean) + (w[|w| - 1].throughput - mean) * (w[|w| - 1].throughput - mean)
  }

  function Mean(w: seq<Row>): real { Sum(w) / 25.0 }

  function Variance(w: seq<Row>): real { SquaredDeviations(w, Mean(w)) / 25.0 }

  /** cv <= 5 %, squared: 100 * std / mean <= 5 for a positive mean. */
  predicate CvWithin(mean: real, variance: real) { 10000.0 * variance <= 25.0 * mean * mean }

  /** That is the coefficient of variation of the population standard deviation. */
  lemma CvIsFivePercent(mean: real, variance: real, std: real)
    requires mean > 0.0 && std >= 0.0 && std * std == variance
    ensures CvWithin(mean, variance) <==> 100.0 * std / mean <= 5.0
  {
    if std * 20.0 <= mean {
      SquaresGrow(std * 20.0, mean);
    } else {
      SquaresGrow(mean, std * 20.0);
      assert (std * 20.0) * (std * 20.0) == 400.0 * variance;
    }
    assert 100.0 * std / mean <= 5.0 <==> 100.0 * std <= 5.0 * mean;
  }

  lemma SquaresGrow(x: real, y: real)
    requires 0.0 <= x <= y
    ensures x * x <= y * y && (x < y ==> x * x < y * y)
  {
    assert y * y - x * x == (y - x) * (y + x);
    if x < y { ProductPositive(y - x, y + x); }
  }

  lemma ProductPositive(x: real, y: real)
    requires x > 0.0 && y > 0.0
    ensures x * y > 0.0
  {
  }

  function SumOfSquares(w: seq<Row>): real {
    if w == [] then 0.0 else SumOfSquares(w[..|w| - 1]) + w[|w| - 1].throughput * w[|w| - 1].throughput
  }

  /** n samples with the given sum and sum of squares, expanded about m. */
  function Expanded(squares: real, sum: real, n: real, m: real): real {
    squares - 2.0 * m * sum + n * m * m
  }

  lemma {:induction false} DeviationsExpand(w: seq<Row>, m: real)
    ensures SquaredDeviations(w, m) == Expanded(SumOfSquares(w), Sum(w), |w| as real, m)
  {
    hide Expanded;
    if w == [] {
      NothingExpanded(m);
    } else {
      var front, x := w[..|w| - 1], w[|w| - 1].throughput;
      DeviationsExpand(front, m);
      assert |w| as real == |front| as real + 1.0;
      assert SumOfSquares(w) == SumOfSquares(front) + x * x && Sum(w) == Sum(front) + x;
      assert SquaredDeviations(w, m) == SquaredDeviations(front, m) + (x - m) * (x - m);
      OneDeviation(SumOfSquares(front), Sum(front), |front| as real, x, m);
    }
  }

  lemma NothingExpanded(m: real)
    ensures Expanded(0.0, 0.0, 0.0, m) == 0.0
  {
  }

  /** One more sample in the expanded sum. */
  lemma OneDeviation(squares: real, sum: real, n: real, x: real, m: real)
    ensures Expanded(squares, sum, n, m) + (x - m) * (x - m) == Expanded(squares + x * x, sum + x, n + 1.0, m)
  {
    assert (x - m) * (x - m) == x * x - 2.0 * m * x + m * m;
    assert 2.0 * m * (sum + x) == 2.0 * m * sum + 2.0 * m * x;
    assert (n + 1.0) * m * m == n * m * m + m * m;
  }

  /** The two-pass variance is the mean of the squares less the square of the mean. */
  lemma VarianceIs(w: seq<Row>)
    requires |w| == WINDOW_SAMPLES
    ensures Variance(w) == SumOfSquares(w) / 25.0 - Mean(w) * Mean(w)
  {
    DeviationsExpand(w, Mean(w));
    var m := Mean(w);
    assert Sum(w) == 25.0 * m;
    assert SquaredDeviations(w, m) == SumOfSquares(w) - 25.0 * m * m;
  }

  /** mean shift <= 5 %. */
  predicate ShiftWithin(m1: real, m2: real) { 100.0 * Abs(m2 - m1) <= 5.0 * m1 }

  /** The shift is measured against the first window's mean. */
  lemma ShiftIsFivePercent(m1: real, m2: real)
    requires m1 > 0.0
    ensures ShiftWithin(m1, m2) <==> 100.0 * Abs(m2 - m1) / m1 <= 5.0
    ensures ShiftWithin(m1, m2) <==> 0.95 * m1 <= m2 <= 1.05 * m1
  {
    QuotientBound(100.0 * Abs(m2 - m1), m1, 5.0);
  }

  lemma QuotientBound(x: real, y: real, bound: real)
    requires y > 0.0
    ensures x / y <= bound <==> x <= bound * y
  {
    var q := x / y;
    assert q * y == x;
    if q <= bound { ProductGrows(q, bound, y); } else { ProductGrows(bound, q, y); assert bound * y < q * y; }
  }

  lemma ProductGrows(a: real, b: real, y: real)
    requires a <= b && y > 0.0
    ensures a * y <= b * y && (a < b ==> a * y < b * y)
  {
    assert b * y - a * y == (b - a) * y;
    if a < b { ProductPositive(b - a, y); }
  }

  /** A window of the evaluator in numbers: 25 complete rows of 0.2 s to the microsecond, each
      beginning where the one before ends, over 5 s, with a positive mean. */
  lemma MeasurableMeans(w: seq<Row>)
    ensures Measurable(w) <==>
      && |w| == 25 && w[24].end - w[0].start >= 4.999999 && w[24].end - w[0].start <= 5.000001
      && (forall i :: 0 <= i < 25 ==> w[i].intervalClass == Complete && 0.199999 <= w[i].duration <= 0.200001)
      && (forall i :: 0 < i < 25 ==> -0.000001 <= w[i].start - w[i - 1].end <= 0.000001)
      && Sum(w) > 0.0
  {
  }

  /** Eligibility in numbers: a complete row of 0.2 s, after a step one that begins, to the nanosecond,
      no earlier than the transition origin. */
  lemma EligibleMeans(r: Row, mode: Mode)
    requires !Raises(r, mode)
    ensures Eligible(r, mode) <==>
      && r.intervalClass == Complete && 0.199999 <= r.duration <= 0.200001
      && (mode.PostStep? ==> r.wallNs as real - 1000000000.0 * r.duration >= mode.t0Ns as real)
  {
  }

  datatype Metrics = Metrics(firstId: nat, lastId: nat, mean: real, variance: real)

  function MetricsOf(w: seq<Row>): Metrics
    requires |w| == WINDOW_SAMPLES
  {
    Metrics(w[0].recordId, w[|w| - 1].recordId, Mean(w), Variance(w))
  }

  /** window_metrics raises on a bad geometry or a mean that is not positive. */
  predicate Measurable(w: seq<Row>) { Geometry(w) && Mean(w) > 0.0 }

  datatype Report =
    | Insufficient(samples: nat)
    | Report(samples: nat, w1: Metrics, w2: Metrics, cv1: bool, cv2: bool, shift: bool, duration: bool)

  /** The minimum phase duration. */
  predicate DurationPass(last: Row, mode: Mode)
    requires mode.PostStep? ==> HasBounds(last)
  {
    if mode.PostStep? then last.wallNs - mode.t0Ns >= POST_MINIMUM_NS else last.end >= INITIAL_PRE_MINIMUM_S
  }

  method MeasureWindow(w: seq<Row>) returns (metrics: Option<Metrics>)
    ensures metrics.Some? <==> Measurable(w)
    ensures metrics.Some? ==> metrics.value == MetricsOf(w)
  {
    if |w| != WINDOW_SAMPLES { return None; }
    var i := 0;
    while i < |w|
      invariant 0 <= i <= |w|
      invariant forall k :: 0 <= k < i ==> IsComplete(w[k])
    {
      if !IsComplete(w[i]) { return None; }
      i := i + 1;
    }
    i := 1;
    while i < |w|
      invariant 1 <= i <= |w|
      invariant forall k :: 0 < k < i ==> Contiguous(w[k - 1], w[k])
    {
      if !Contiguous(w[i - 1], w[i]) { return None; }
      i := i + 1;
    }
    if Abs(w[|w| - 1].end - w[0].start - WINDOW_S) > TOLERANCE_S { return None; }
    var mean := Mean(w);
    if mean <= 0.0 { return None; }
    return Some(Metrics(w[0].recordId, w[|w| - 1].recordId, mean, Variance(w)));
  }

  /** Where the two windows start in a run of n samples: they are its last two full windows. */
  function W1Start(n: nat): int { (n / WINDOW_SAMPLES - 2) * WINDOW_SAMPLES }

  /** The first and the second window of a run of at least 50 samples. */
  function W1(run: seq<Row>): (w: seq<Row>)
    requires |run| >= 50
    ensures |w| == WINDOW_SAMPLES
  {
    run[W1Start(|run|)..W1Start(|run|) + 25]
  }

  function W2(run: seq<Row>): (w: seq<Row>)
    requires |run| >= 50
    ensures |w| == WINDOW_SAMPLES
  {
    run[W1Start(|run|) + 25..W1Start(|run|) + 50]
  }

  /** The windows are adjacent, and less than one window of the run is left after them. */
  lemma WindowsAreLast(run: seq<Row>)
    requires |run| >= 50
    ensures var s := W1Start(|run|);
      0 <= s && W1(run) + W2(run) == run[s..s + 50] && 0 <= |run| - (s + 50) < WINDOW_SAMPLES
  {
  }

  /** evaluate on the latest run; None is a StationarityError: an eligibility test raised, or one
      of the two windows cannot be measured. */
  method Evaluate(rows: seq<Row>, mode: Mode) returns (report: Option<Report>)
    ensures report == None <==>
      !NoneRaise(rows, mode)
      || (|LatestRun(rows, mode)| >= 50
          && !(Measurable(W1(LatestRun(rows, mode))) && Measurable(W2(LatestRun(rows, mode)))))
    ensures report.Some? ==>
      && report.value.samples == |LatestRun(rows, mode)|
      && (report.value.Insufficient? <==> |LatestRun(rows, mode)| < 50)
    ensures report.Some? && report.value.Report? ==>
      var w1, w2 := W1(LatestRun(rows, mode)), W2(LatestRun(rows, mode));
      && report.value.w1 == MetricsOf(w1) && report.value.w2 == MetricsOf(w2)
      && report.value.cv1 == CvWithin(Mean(w1), Variance(w1)) && report.value.cv2 == CvWithin(Mean(w2), Variance(w2))
      && report.value.shift == ShiftWithin(Mean(w1), Mean(w2))
      && (report.value.shift <==> 0.95 * Mean(w1) <= Mean(w2) <= 1.05 * Mean(w1))
      && (mode.PostStep? ==> HasBounds(w2[24]))
      && (report.value.duration <==>
            if mode.PostStep? then w2[24].wallNs >= mode.t0Ns + 10_000_000_000 else w2[24].end >= 11.0)
  {
    hide Mean;
    hide Variance;
    hide CvWithin;
    hide ShiftWithin;
    hide ExactNs;
    hide Geometry;
    hide LatestRun;
    hide IsComplete;
    var run := LatestEligibleRun(rows, mode);
    if run == None { return None; }
    var fullWindows := |run.value| / WINDOW_SAMPLES;
    if fullWindows < 2 { return Some(Insufficient(|run.value|)); }
    var start := (fullWindows - 2) * WINDOW_SAMPLES;
    var w1 := run.value[start..start + 25];
    var w2 := run.value[start + 25..start + 50];
    assert w1 == W1(run.value) && w2 == W2(run.value);
    var m1 := MeasureWindow(w1);
    if m1 == None { return None; }
    var m2 := MeasureWindow(w2);
    if m2 == None { return None; }
    RunIsEligible(rows, mode, start + 49);
    ShiftIsFivePercent(m1.value.mean, m2.value.mean);
    var last := w2[24];
    return Some(Report(|run.value|, m1.value, m2.value, CvWithin(m1.value.mean, m1.value.variance),
                       CvWithin(m2.value.mean, m2.value.variance), ShiftWithin(m1.value.mean, m2.value.mean),
                       DurationPass(last, mode)));
  }

  /** Every sample of the run is eligible; after a step it lies wholly after the origin. */
  lemma RunIsEligible(rows: seq<Row>, mode: Mode, i: nat)
    requires NoneRaise(rows, mode) && i < |LatestRun(rows, mode)|
    ensures var r := LatestRun(rows, mode)[i];
      && IsComplete(r)
      && (mode.PostStep? ==> HasBounds(r) && StartNs(r) >= mode.t0Ns)
  {
    hide ExactNs;
    hide Contiguous;
    LatestRunIsLastBlock(rows, mode);
    var a := RunStart(rows, mode);
    hide RunStart;
    hide RunEnd;
    assert Eligible(rows[a + i], mode);
  }

  /** After a step, every sample of both windows lies wholly after the transition origin. */
  lemma WindowsAfterT0(rows: seq<Row>, mode: Mode, i: nat)
    requires NoneRaise(rows, mode) && mode.PostStep? && |LatestRun(rows, mode)| >= 50 && i < WINDOW_SAMPLES
    ensures var run := LatestRun(rows, mode);
      && HasBounds(W1(run)[i]) && StartNs(W1(run)[i]) >= mode.t0Ns
      && HasBounds(W2(run)[i]) && StartNs(W2(run)[i]) >= mode.t0Ns
  {
    hide LatestRun;
    hide HasBounds;
    var s := W1Start(|LatestRun(rows, mode)|);
    RunIsEligible(rows, mode, s + i);
    RunIsEligible(rows, mode, s + 25 + i);
  }

  /** The last maximal block is unique: whoever satisfies the description has found this run. */
  lemma LastBlockUnique(rows: seq<Row>, mode: Mode, a: nat, b: nat, c: nat, d: nat)
    requires NoneRaise(rows, mode) && a <= b <= |rows| && c <= d <= |rows|
    requires LastBlock(rows, mode, |rows|, a, b) && LastBlock(rows, mode, |rows|, c, d)
    ensures rows[a..b] == rows[c..d]
    ensures a < b ==> a == c && b == d
  {
    hide IsComplete;
    hide HasBounds;
    hide Contiguous;
    if a < b { assert Eligible(rows[a], mode); }
    if c < d { assert Eligible(rows[c], mode); }
    if a < b && c < d {
      BlocksMeet(rows, mode, a, b, c, d);
      BlocksMeet(rows, mode, c, d, a, b);
    }
  }

  /** Of two last blocks, neither ends later and neither starts later than the other. */
  lemma BlocksMeet(rows: seq<Row>, mode: Mode, a: nat, b: nat, c: nat, d: nat)
    requires NoneRaise(rows, mode) && a < b <= |rows| && c < d <= |rows|
    requires LastBlock(rows, mode, |rows|, a, b) && LastBlock(rows, mode, |rows|, c, d)
    ensures b >= d && (b == d ==> c >= a)
  {
    hide IsComplete;
    hide HasBounds;
    hide Contiguous;
    assert Eligible(rows[d - 1], mode);
  }
}
