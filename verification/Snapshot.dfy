/** The concurrent snapshot of the two capture files, and why what it accepts always parses. */
module Snapshot {
  import opened Bytes
  import opened ReceiverEvidence

  // ---- the two files while capture runs ----

  /** What capture appends for one line: the line to the raw file, then its row to the other. */
  datatype Item = Item(line: seq<byte>, stamp: seq<byte>)

  /** The raw file after p bytes have been appended in all. */
  function RawAt(items: seq<Item>, p: nat): seq<byte>
    decreases |items|
  {
    if items == [] then []
    else
      var line, stamp := items[0].line, items[0].stamp;
      if p <= |line| then line[..p]
      else if p <= |line| + |stamp| then line
      else line + RawAt(items[1..], p - |line| - |stamp|)
  }

  /** The timestamp file at the same moment. */
  function StampAt(items: seq<Item>, p: nat): seq<byte>
    decreases |items|
  {
    if items == [] then []
    else
      var line, stamp := items[0].line, items[0].stamp;
      if p <= |line| then []
      else if p <= |line| + |stamp| then stamp[..p - |line|]
      else stamp + StampAt(items[1..], p - |line| - |stamp|)
  }

  function Lines(items: seq<Item>): seq<byte> {
    if items == [] then [] else items[0].line + Lines(items[1..])
  }

  function Stamps(items: seq<Item>): seq<byte> {
    if items == [] then [] else items[0].stamp + Stamps(items[1..])
  }

  predicate EndsLine(s: seq<byte>) { s != [] && s[|s| - 1] == LINE_FEED }

  /** Line feeds occur only at the end; a row always has one there, a line may lack it. */
  predicate SoundItem(i: Item) {
    && i.line != [] && LINE_FEED !in i.line[..|i.line| - 1]
    && EndsLine(i.stamp) && LINE_FEED !in i.stamp[..|i.stamp| - 1]
  }

  predicate SoundItems(items: seq<Item>) { forall i :: 0 <= i < |items| ==> SoundItem(items[i]) }

  /** Both files only grow. */
  lemma {:induction false} FilesGrow(items: seq<Item>, p: nat, q: nat)
    requires p <= q
    ensures RawAt(items, p) <= RawAt(items, q) && StampAt(items, p) <= StampAt(items, q)
    decreases |items|
  {
    if items != [] {
      var n := |items[0].line| + |items[0].stamp|;
      if p > n { FilesGrow(items[1..], p - n, q - n); }
    }
  }

  lemma PartialHasNoEnd(s: seq<byte>, n: nat)
    requires n <= |s| && s != [] && LINE_FEED !in s[..|s| - 1] && EndsLine(s[..n])
    ensures n == |s|
  {
  }

  /** When both files end in a line feed at the same moment, the timestamp file holds complete rows
      0 .. k-1 and the raw file exactly the lines of those rows, or one line more. */
  lemma {:induction false} WholeLines(items: seq<Item>, p: nat) returns (k: nat)
    requires SoundItems(items) && EndsLine(RawAt(items, p)) && EndsLine(StampAt(items, p))
    ensures 1 <= k <= |items| && StampAt(items, p) == Stamps(items[..k])
    ensures RawAt(items, p) == Lines(items[..k]) || (k < |items| && RawAt(items, p) == Lines(items[..k + 1]))
    decreases |items|
  {
    var line, stamp := items[0].line, items[0].stamp;
    var rest := items[1..];
    var n := |line| + |stamp|;
    assert SoundItem(items[0]);
    Heads(items);
    if p <= n {
      PartialHasNoEnd(stamp, p - |line|);
      k := 1;
    } else if rest == [] {
      k := 1;
    } else {
      var q := p - n;
      assert SoundItem(rest[0]);
      if q <= |rest[0].line| {
        k := 1;
        assert RawAt(rest, q) == rest[0].line[..q] && EndsLine(rest[0].line[..q]);
        PartialHasNoEnd(rest[0].line, q);
        HeadsTwo(items);
      } else {
        EndOfConcat(line, RawAt(rest, q));
        EndOfConcat(stamp, StampAt(rest, q));
        var j := WholeLines(rest, q);
        k := j + 1;
        HeadOf(items, k);
        if j < |rest| { HeadOf(items, k + 1); }
      }
    }
  }

  lemma EndOfConcat(a: seq<byte>, b: seq<byte>)
    requires EndsLine(a + b) && b != []
    ensures EndsLine(b)
  {
  }

  lemma HeadOf(items: seq<Item>, k: nat)
    requires 1 <= k <= |items|
    ensures Lines(items[..k]) == items[0].line + Lines(items[1..][..k - 1])
    ensures Stamps(items[..k]) == items[0].stamp + Stamps(items[1..][..k - 1])
  {
    assert items[..k][1..] == items[1..][..k - 1];
  }

  lemma Heads(items: seq<Item>)
    requires items != []
    ensures Lines(items[..1]) == items[0].line && Stamps(items[..1]) == items[0].stamp
  {
    HeadOf(items, 1);
  }

  lemma HeadsTwo(items: seq<Item>)
    requires |items| >= 2
    ensures Lines(items[..2]) == items[0].line + items[1].line
  {
    HeadOf(items, 2);
    assert items[1..][..1] == [items[1]];
    assert Lines([items[1]]) == items[1].line + Lines([]);
  }

  // ---- the snapshot loop ----

  datatype Failure = IncompleteRaw | IncompleteTimestamps | StabilityTimeout

  /** What the loop meets: progress(i) is how far capture has come at the i-th look at a file, and
      clock(j) the j-th reading of the monotonic clock. */
  datatype Env = Env(progress: nat -> nat, clock: nat -> int)

  ghost predicate Monotone(env: Env) { forall i, j :: 0 <= i <= j ==> env.progress(i) <= env.progress(j) }

  /** Both files at one moment. */
  ghost predicate Simultaneous(items: seq<Item>, raw: seq<byte>, stamps: seq<byte>) {
    exists p :: raw == RawAt(items, p) && stamps == StampAt(items, p)
  }

  /** At look n the files have these sizes: the raw file then, the timestamp file at the next look. */
  ghost predicate Sizes(items: seq<Item>, env: Env, n: nat, raw: nat, stamps: nat) {
    |RawAt(items, env.progress(n))| == raw && |StampAt(items, env.progress(n + 1))| == stamps
  }

  /** Two looks at these sizes, with at least that much on the clock between them. */
  ghost predicate Steady(items: seq<Item>, env: Env, stable: int, raw: nat, stamps: nat) {
    exists m: nat, n: nat, i: nat, j: nat ::
      && m < n && i < j && Sizes(items, env, m, raw, stamps) && Sizes(items, env, n, raw, stamps)
      && env.clock(j) - env.clock(i) >= stable
  }

  /** Capture is quiet from the start, with something in both files, and the clock passes the stability
      time within the given passes. */
  ghost predicate Quiet(items: seq<Item>, env: Env, stable: int, rounds: nat) {
    && (forall i: nat :: env.progress(i) == env.progress(0))
    && RawAt(items, env.progress(0)) != [] && StampAt(items, env.progress(0)) != []
    && exists j: nat :: 0 < j < rounds && env.clock(j) - env.clock(0) >= stable
  }

  /** stable_pair_snapshot; rounds bounds the passes before the deadline. What is accepted is the
      content of both files at one single moment, both end in a line feed, and their sizes were the
      same over the stability time; the other failures name the file that does not end in one. A quiet
      pair of files does not time out: it is accepted when both end in a line feed. */
  method StablePairSnapshot(items: seq<Item>, env: Env, stable: int, rounds: nat)
    returns (failure: Option<Failure>, raw: seq<byte>, stamps: seq<byte>)
    requires Monotone(env)
    ensures failure == None ==> Simultaneous(items, raw, stamps) && EndsLine(raw) && EndsLine(stamps)
    ensures failure != Some(StabilityTimeout) ==>
      raw != [] && stamps != [] && Steady(items, env, stable, |raw|, |stamps|)
    ensures failure == Some(IncompleteRaw) ==> !EndsLine(raw)
    ensures failure == Some(IncompleteTimestamps) ==> EndsLine(raw) && !EndsLine(stamps)
    ensures Quiet(items, env, stable, rounds) ==>
      && raw == RawAt(items, env.progress(0)) && stamps == StampAt(items, env.progress(0))
      && (failure == None <==> EndsLine(raw) && EndsLine(stamps)) && failure != Some(StabilityTimeout)
  {
    hide Quiet;
    hide RawAt;
    hide StampAt;
    hide Simultaneous;
    hide EndsLine;
    hide Steady;
    var previous: Option<(nat, nat)> := None;
    var since := 0;
    var look: nat := 0;
    var tick: nat := 0;
    var left := rounds;
    ghost var sinceLook: nat, sinceTick: nat := 0, 0;
    ghost var quiet := Quiet(items, env, stable, rounds);
    while left > 0
      invariant left <= rounds
      invariant previous.Some? ==>
        && sinceLook < look && sinceTick < tick && since == env.clock(sinceTick)
        && Sizes(items, env, sinceLook, previous.value.0, previous.value.1)
        && previous.value.0 > 0 && previous.value.1 > 0
      invariant quiet ==> tick == rounds - left && sinceTick == 0 && (previous.Some? <==> tick > 0)
      invariant quiet ==> forall j: nat :: 0 < j < tick ==> env.clock(j) - env.clock(0) < stable
    {
      left := left - 1;
      var rawSize := |RawAt(items, env.progress(look))|;
      var stampSize := |StampAt(items, env.progress(look + 1))|;
      if quiet { QuietLooks(items, env, stable, rounds); }
      var now := env.clock(tick);
      tick := tick + 1;
      if rawSize > 0 && stampSize > 0 {
        if previous != Some((rawSize, stampSize)) {
          previous := Some((rawSize, stampSize));
          since := now;
          sinceLook, sinceTick := look, tick - 1;
        } else if now - since >= stable {
          // read_exact never falls short: the files only grow
          FilesGrow(items, env.progress(look), env.progress(look + 2));
          FilesGrow(items, env.progress(look + 1), env.progress(look + 3));
          raw := RawAt(items, env.progress(look + 2))[..rawSize];
          stamps := StampAt(items, env.progress(look + 3))[..stampSize];
          var rawAfter := |RawAt(items, env.progress(look + 4))|;
          var stampAfter := |StampAt(items, env.progress(look + 5))|;
          if (rawAfter, stampAfter) != (rawSize, stampSize) {
            FilesGrow(items, env.progress(look), env.progress(look + 4));
            FilesGrow(items, env.progress(look + 1), env.progress(look + 5));
            previous := Some((rawAfter, stampAfter));
            since := env.clock(tick);
            tick := tick + 1;
            sinceLook, sinceTick := look + 4, tick - 1;
          } else {
            SameMoment(items, env, look, raw, stamps);
            assert Sizes(items, env, look, rawSize, stampSize);
            SteadyBetween(items, env, stable, rawSize, stampSize, sinceLook, look, sinceTick, tick - 1);
            if !EndsLine(raw) { return Some(IncompleteRaw), raw, stamps; }
            if !EndsLine(stamps) { return Some(IncompleteTimestamps), raw, stamps; }
            return None, raw, stamps;
          }
        }
      }
      look := look + 6;
    }
    if quiet { QuietEnds(items, env, stable, rounds); }
    return Some(StabilityTimeout), [], [];
  }

  lemma SteadyBetween(items: seq<Item>, env: Env, stable: int, raw: nat, stamps: nat, m: nat, n: nat, i: nat, j: nat)
    requires m < n && i < j && Sizes(items, env, m, raw, stamps) && Sizes(items, env, n, raw, stamps)
    requires env.clock(j) - env.clock(i) >= stable
    ensures Steady(items, env, stable, raw, stamps)
  {
  }

  lemma QuietLooks(items: seq<Item>, env: Env, stable: int, rounds: nat)
    requires Quiet(items, env, stable, rounds)
    ensures forall k: nat :: env.progress(k) == env.progress(0)
    ensures RawAt(items, env.progress(0)) != [] && StampAt(items, env.progress(0)) != []
  {
  }

  lemma QuietEnds(items: seq<Item>, env: Env, stable: int, rounds: nat)
    requires Quiet(items, env, stable, rounds)
    ensures exists j: nat :: 0 < j < rounds && env.clock(j) - env.clock(0) >= stable
  {
  }

  /** Equal sizes before and after mean that neither file changed in between. */
  lemma SameMoment(items: seq<Item>, env: Env, look: nat, raw: seq<byte>, stamps: seq<byte>)
    requires Monotone(env)
    requires |RawAt(items, env.progress(look))| == |RawAt(items, env.progress(look + 4))|
    requires |StampAt(items, env.progress(look + 1))| == |StampAt(items, env.progress(look + 5))|
    requires |RawAt(items, env.progress(look))| <= |RawAt(items, env.progress(look + 2))|
    requires |StampAt(items, env.progress(look + 1))| <= |StampAt(items, env.progress(look + 3))|
    requires raw == RawAt(items, env.progress(look + 2))[..|RawAt(items, env.progress(look))|]
    requires stamps == StampAt(items, env.progress(look + 3))[..|StampAt(items, env.progress(look + 1))|]
    ensures Simultaneous(items, raw, stamps)
  {
    hide RawAt;
    hide StampAt;
    var p := env.progress(look + 2);
    FilesGrow(items, env.progress(look), p);
    FilesGrow(items, p, env.progress(look + 4));
    FilesGrow(items, env.progress(look + 1), p);
    FilesGrow(items, p, env.progress(look + 3));
    FilesGrow(items, env.progress(look + 3), env.progress(look + 5));
    assert raw == RawAt(items, p) && stamps == StampAt(items, p);
  }

  // ---- an accepted snapshot parses ----

  function ItemsOf(t: Tools, arrivals: seq<Arrival>): (items: seq<Item>)
    ensures |items| == |arrivals|
  {
    seq(|arrivals|, i requires 0 <= i < |arrivals| => Item(arrivals[i].line, t.encode(RowOf(t, arrivals, i))))
  }

  /** readline's lines: a line feed, if any, comes last. */
  predicate ReadLines(arrivals: seq<Arrival>) {
    forall i :: 0 <= i < |arrivals| ==>
      arrivals[i].line != [] && LINE_FEED !in arrivals[i].line[..|arrivals[i].line| - 1]
  }

  /** The bytes before the first line feed. */
  function LineLength(s: seq<byte>): (n: nat)
    requires LINE_FEED in s
    ensures n < |s| && s[n] == LINE_FEED && LINE_FEED !in s[..n]
  {
    if s[0] == LINE_FEED then 0
    else
      var n := 1 + LineLength(s[1..]);
      assert s[..n] == [s[0]] + s[1..][..n - 1];
      n
  }

  /** The rows of a timestamp file, one per line. */
  function ReadRows(t: Tools, s: seq<byte>): Option<seq<Row>>
    decreases |s|
  {
    if s == [] then Some([])
    else if LINE_FEED !in s then None
    else
      var n := LineLength(s);
      match (t.readRow(s[..n]), ReadRows(t, s[n + 1..]))
      case (Some(r), Some(rows)) => Some([r] + rows)
      case _ => None
  }

  lemma LineLengthIs(s: seq<byte>, n: nat)
    requires n < |s| && s[n] == LINE_FEED && LINE_FEED !in s[..n]
    ensures LineLength(s) == n
  {
  }

  lemma FirstRowReads(t: Tools, r: Row, rest: seq<byte>, rows: seq<Row>)
    requires Codec(t) && ReadRows(t, rest) == Some(rows)
    ensures ReadRows(t, t.encode(r) + rest) == Some([r] + rows)
  {
    var e := t.encode(r);
    var s := e + rest;
    assert |e| >= 2 && e[|e| - 1] == LINE_FEED;
    assert s[..|e| - 1] == e[..|e| - 1];
    assert s[|e| - 1] == LINE_FEED;
    LineLengthIs(s, |e| - 1);
    assert s[|e|..] == rest;
  }

  lemma NothingReads(t: Tools)
    ensures ReadRows(t, []) == Some([])
  {
  }

  /** The encodings of a row list read back as that list. */
  lemma {:induction false} RowsReadBack(t: Tools, arrivals: seq<Arrival>, i: nat, k: nat)
    requires Codec(t) && i <= k <= |arrivals|
    ensures ReadRows(t, Stamps(ItemsOf(t, arrivals)[i..k])) == Some(Rows(t, arrivals, k)[i..])
    decreases k - i
  {
    hide RowOf;
    hide ReadRows;
    var items := ItemsOf(t, arrivals);
    if i < k {
      var r := RowOf(t, arrivals, i);
      var rest := Stamps(items[i + 1..k]);
      assert items[i..k][1..] == items[i + 1..k];
      RowsReadBack(t, arrivals, i + 1, k);
      FirstRowReads(t, r, rest, Rows(t, arrivals, k)[i + 1..]);
      assert Rows(t, arrivals, k)[i..] == [r] + Rows(t, arrivals, k)[i + 1..];
    } else {
      NothingReads(t);
      assert items[i..k] == [];
      assert Rows(t, arrivals, k)[i..] == [];
    }
  }

  lemma {:induction false} LinesAreRaw(t: Tools, arrivals: seq<Arrival>, k: nat)
    requires k <= |arrivals|
    ensures Lines(ItemsOf(t, arrivals)[..k]) == Raw(arrivals[..k])
  {
    var items := ItemsOf(t, arrivals);
    if k > 0 {
      LinesAreRaw(t, arrivals, k - 1);
      LinesNext(items[..k - 1], items[k - 1]);
      assert items[..k] == items[..k - 1] + [items[k - 1]];
      RawNext(arrivals, k - 1);
    }
  }

  lemma {:induction false} LinesNext(items: seq<Item>, i: Item)
    ensures Lines(items + [i]) == Lines(items) + i.line
  {
    if items == [] {
      assert items + [i] == [i];
      assert Lines([i]) == i.line + Lines([]);
    } else {
      LinesNext(items[1..], i);
      assert (items + [i])[1..] == items[1..] + [i];
    }
  }

  lemma ItemsAreSound(t: Tools, arrivals: seq<Arrival>)
    requires Codec(t) && ReadLines(arrivals)
    ensures SoundItems(ItemsOf(t, arrivals))
  {
    var items := ItemsOf(t, arrivals);
    forall i | 0 <= i < |items| ensures SoundItem(items[i]) {
      var r := RowOf(t, arrivals, i);
      assert items[i] == Item(arrivals[i].line, t.encode(r));
      hide RowOf;
      EncodedIsSound(t, r);
    }
  }

  lemma EncodedIsSound(t: Tools, r: Row)
    requires Codec(t)
    ensures EndsLine(t.encode(r)) && LINE_FEED !in t.encode(r)[..|t.encode(r)| - 1]
  {
  }

  /** However capture and snapshot interleave, an accepted pair of snapshots is the rows of some
      number k of captured lines with at least those lines, and every check of the parser passes
      on it: the parse is that of the first k rows, unless a line's number does not convert. */
  lemma AcceptedSnapshotParses(t: Tools, arrivals: seq<Arrival>, raw: seq<byte>, stamps: seq<byte>) returns (k: nat)
    requires Codec(t) && SoundArrivals(arrivals) && ReadLines(arrivals)
    requires Simultaneous(ItemsOf(t, arrivals), raw, stamps) && EndsLine(raw) && EndsLine(stamps)
    ensures 1 <= k <= |arrivals|
    ensures ReadRows(t, stamps) == Some(Rows(t, arrivals, k))
    ensures raw == Raw(arrivals[..k]) || (k < |arrivals| && raw == Raw(arrivals[..k + 1]))
    ensures forall i :: 0 <= i < k ==> RowSound(t, raw, Rows(t, arrivals, k), i)
    ensures Parses(t, raw, Rows(t, arrivals, k)) <==> NoneRaises(t, Rows(t, arrivals, k))
  {
    hide NoneRaises;
    hide Raw;
    hide RowSound;
    hide ReadRows;
    hide Lines;
    hide Stamps;
    var items := ItemsOf(t, arrivals);
    ItemsAreSound(t, arrivals);
    var p :| raw == RawAt(items, p) && stamps == StampAt(items, p);
    hide RawAt;
    hide StampAt;
    k := WholeLines(items, p);
    var rows := Rows(t, arrivals, k);
    RowsReadBack(t, arrivals, 0, k);
    assert items[0..k] == items[..k] && rows[0..] == rows;
    LinesAreRaw(t, arrivals, k);
    if k < |arrivals| { LinesAreRaw(t, arrivals, k + 1); }
    SnapshotCovers(arrivals, k, raw);
    forall i | 0 <= i < k ensures RowSound(t, raw, rows, i) { SliceIsSound(t, arrivals, 0, k, raw, i); }
  }

  lemma SnapshotCovers(arrivals: seq<Arrival>, k: nat, raw: seq<byte>)
    requires k <= |arrivals|
    requires raw == Raw(arrivals[..k]) || (k < |arrivals| && raw == Raw(arrivals[..k + 1]))
    ensures Covers(arrivals, 0, k, raw)
  {
    SliceBounds(arrivals, 0, k);
    assert arrivals[..0] == [];
    if k < |arrivals| { RawPrefix(arrivals, k, k + 1); }
    assert Raw(arrivals)[0..|Raw(arrivals[..k])|] == Raw(arrivals[..k]);
  }
}
