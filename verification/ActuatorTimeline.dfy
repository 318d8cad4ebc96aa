/** The actuator timeline: its builder, and the two stages that load it. */
module ActuatorTimeline {
  import opened Bytes

  /** The Prompt-12 ratios and the PRBs each must read back as. */
  function Prbs(ratio: int): (prbs: Option<int>)
    ensures prbs.Some? <==> ratio in {25, 50, 75, 100}
    ensures prbs.Some? ==> 100 * prbs.value == 52 * ratio
  {
    if ratio == 25 then Some(13) else if ratio == 50 then Some(26) else if ratio == 75 then Some(39)
    else if ratio == 100 then Some(52) else None
  }

  const MAX_CONTROLS: nat := 6

  // ---- events ----

  datatype EventType = CommandType | AppliedType | AcknowledgementType

  datatype Payload = Command(ratio: int) | AppliedReadback(minPrbs: int, maxPrbs: int) | Acknowledgement(pass: bool)

  function TypeOf(p: Payload): EventType {
    match p
    case Command(_) => CommandType
    case AppliedReadback(_, _) => AppliedType
    case Acknowledgement(_) => AcknowledgementType
  }

  /** A record id names its control and its event type. */
  datatype RecordId = RecordId(control: nat, event: EventType)

  datatype Event = Event(experimentId: string, runId: string, recordId: RecordId, timestampNs: int, payload: Payload)

  // ---- the log lines ----

  /** A log line: its leading timestamp, if it has a valid one, and the PRBs it reports, if any. */
  datatype Line = Line(timestampNs: Option<int>, applied: Option<(int, int)>)

  datatype Logs = Logs(ratios: seq<int>, commands: seq<Line>, applied: seq<Line>, acks: seq<Line>)

  predicate CountsMatch(l: Logs) { |l.commands| == |l.applied| == |l.acks| == |l.ratios| }

  /** The checks build_events makes on control i (counted from 0). */
  predicate ControlSound(l: Logs, i: nat)
    requires CountsMatch(l) && i < |l.ratios|
  {
    var c, a, k := l.commands[i].timestampNs, l.applied[i].timestampNs, l.acks[i].timestampNs;
    && c.Some? && a.Some? && k.Some?
    && Prbs(l.ratios[i]).Some? && l.applied[i].applied == Some((0, Prbs(l.ratios[i]).value))
    && c.value < a.value < k.value
    && (i > 0 && l.acks[i - 1].timestampNs.Some? ==> c.value > l.acks[i - 1].timestampNs.value)
  }

  predicate ControlsSound(l: Logs, n: nat)
    requires CountsMatch(l) && n <= |l.ratios|
  {
    forall i :: 0 <= i < n ==> ControlSound(l, i)
  }

  /** The three events of control i. */
  function Triplet(experimentId: string, runId: string, l: Logs, i: nat): (t: seq<Event>)
    requires CountsMatch(l) && i < |l.ratios| && ControlSound(l, i)
    ensures |t| == 3
  {
    [Event(experimentId, runId, RecordId(i + 1, CommandType), l.commands[i].timestampNs.value, Command(l.ratios[i])),
     Event(experimentId, runId, RecordId(i + 1, AppliedType), l.applied[i].timestampNs.value,
           AppliedReadback(0, Prbs(l.ratios[i]).value)),
     Event(experimentId, runId, RecordId(i + 1, AcknowledgementType), l.acks[i].timestampNs.value,
           Acknowledgement(true))]
  }

  function Events(experimentId: string, runId: string, l: Logs, n: nat): (es: seq<Event>)
    requires CountsMatch(l) && n <= |l.ratios| && ControlsSound(l, n)
    ensures |es| == 3 * n
  {
    if n == 0 then [] else Events(experimentId, runId, l, n - 1) + Triplet(experimentId, runId, l, n - 1)
  }

  /** build_events; None is a TimelineError. */
  method BuildEvents(experimentId: string, runId: string, l: Logs) returns (events: Option<seq<Event>>)
    ensures events.Some? <==> CountsMatch(l) && ControlsSound(l, |l.ratios|)
    ensures events.Some? ==> events.value == Events(experimentId, runId, l, |l.ratios|)
  {
    if |l.commands| != |l.ratios| || |l.applied| != |l.ratios| || |l.acks| != |l.ratios| { return None; }
    var built: seq<Event> := [];
    var previousAck: Option<int> := None;
    var i := 0;
    while i < |l.ratios|
      invariant 0 <= i <= |l.ratios| && ControlsSound(l, i)
      invariant built == Events(experimentId, runId, l, i)
      invariant previousAck == if i == 0 then None else l.acks[i - 1].timestampNs
    {
      ghost var sound := ControlSound(l, i);
      var c, a, k := l.commands[i].timestampNs, l.applied[i].timestampNs, l.acks[i].timestampNs;
      var expected := Prbs(l.ratios[i]);
      if c == None || a == None || k == None || l.applied[i].applied == None || expected == None {
        assert !sound;
        return None;
      }
      var (appliedMin, appliedMax) := l.applied[i].applied.value;
      if appliedMin != 0 || appliedMax != expected.value || !(c.value < a.value < k.value) {
        assert !sound;
        return None;
      }
      if previousAck.Some? && c.value <= previousAck.value {
        assert !sound;
        return None;
      }
      built := built + [
        Event(experimentId, runId, RecordId(i + 1, CommandType), c.value, Command(l.ratios[i])),
        Event(experimentId, runId, RecordId(i + 1, AppliedType), a.value, AppliedReadback(appliedMin, appliedMax)),
        Event(experimentId, runId, RecordId(i + 1, AcknowledgementType), k.value, Acknowledgement(true))];
      previousAck := k;
      i := i + 1;
    }
    return Some(built);
  }

  // ---- the canonicaliser's loader ----

  predicate RowsSound(rows: seq<Event>, experimentId: string, runId: string, n: nat)
    requires n <= |rows|
  {
    && (forall i :: 0 <= i < n ==> rows[i].experimentId == experimentId && rows[i].runId == runId)
    && (forall i, j :: 0 <= i < j < n ==> rows[i].recordId != rows[j].recordId)
    && (forall i :: 0 < i < n ==> rows[i - 1].timestampNs < rows[i].timestampNs)
  }

  /** The checks on the j-th triplet. */
  predicate TripletSound(rows: seq<Event>, j: nat)
    requires 3 * j + 2 < |rows|
  {
    var command, applied, ack := rows[3 * j], rows[3 * j + 1], rows[3 * j + 2];
    && command.payload.Command? && applied.payload.AppliedReadback? && ack.payload.Acknowledgement?
    && Prbs(command.payload.ratio).Some?
    && applied.payload.minPrbs == 0 && applied.payload.maxPrbs == Prbs(command.payload.ratio).value
    && ack.payload.pass
    && command.timestampNs < applied.timestampNs < ack.timestampNs
    && (j > 0 ==> command.timestampNs > rows[3 * j - 1].timestampNs)
  }

  predicate TripletsSound(rows: seq<Event>, n: nat)
    requires 3 * n <= |rows|
  {
    forall j :: 0 <= j < n ==> TripletSound(rows, j)
  }

  function AppliedTimes(rows: seq<Event>, n: nat): (times: seq<int>)
    requires 3 * n <= |rows|
    ensures |times| == n
  {
    seq(n, j requires 0 <= j < n && 3 * n <= |rows| => rows[3 * j + 1].timestampNs)
  }

  predicate TimelineAccepted(rows: seq<Event>, experimentId: string, runId: string) {
    && |rows| % 3 == 0 && 1 <= |rows| / 3 <= MAX_CONTROLS
    && RowsSound(rows, experimentId, runId, |rows|)
    && TripletsSound(rows, |rows| / 3)
  }

  /** load_actuator_timeline: the applied times of an accepted timeline. */
  method LoadActuatorTimeline(rows: seq<Event>, experimentId: string, runId: string) returns (times: Option<seq<int>>)
    ensures times == if TimelineAccepted(rows, experimentId, runId) then Some(AppliedTimes(rows, |rows| / 3)) else None
  {
    if rows == [] || |rows| % 3 != 0 { return None; }
    var controls := |rows| / 3;
    if controls < 1 || controls > MAX_CONTROLS { return None; }
    var ok := RowsPass(rows, experimentId, runId);
    if !ok { return None; }
    var applied: seq<int> := [];
    var j := 0;
    while j < controls
      invariant 0 <= j <= controls && TripletsSound(rows, j)
      invariant applied == AppliedTimes(rows, j)
    {
      var command, readback, ack := rows[3 * j], rows[3 * j + 1], rows[3 * j + 2];
      ghost var sound := TripletSound(rows, j);
      if !command.payload.Command? || !readback.payload.AppliedReadback? || !ack.payload.Acknowledgement? {
        assert !sound;
        return None;
      }
      var expected := Prbs(command.payload.ratio);
      if expected == None || readback.payload.minPrbs != 0 || readback.payload.maxPrbs != expected.value
         || !ack.payload.pass {
        assert !sound;
        return None;
      }
      if !(command.timestampNs < readback.timestampNs < ack.timestampNs) { return None; }
      if j > 0 && command.timestampNs <= rows[3 * j - 1].timestampNs { return None; }
      applied := applied + [readback.timestampNs];
      j := j + 1;
    }
    return Some(applied);
  }

  /** The first loop of load_actuator_timeline. */
  method RowsPass(rows: seq<Event>, experimentId: string, runId: string) returns (ok: bool)
    ensures ok == RowsSound(rows, experimentId, runId, |rows|)
  {
    var seen: set<RecordId> := {};
    var previous: Option<int> := None;
    var i := 0;
    while i < |rows|
      invariant 0 <= i <= |rows| && RowsSound(rows, experimentId, runId, i)
      invariant forall id :: id in seen <==> exists k :: 0 <= k < i && rows[k].recordId == id
      invariant previous == if i == 0 then None else Some(rows[i - 1].timestampNs)
    {
      var row := rows[i];
      if row.experimentId != experimentId || row.runId != runId { return false; }
      if row.recordId in seen { return false; }
      seen := seen + {row.recordId};
      if previous.Some? && row.timestampNs <= previous.value { return false; }
      previous := Some(row.timestampNs);
      i := i + 1;
    }
    return true;
  }

  // ---- the evaluator's loader ----

  /** load_post_t0 for a control counted from 1; None is a StationarityError. */
  method LoadPostT0(rows: seq<Event>, experimentId: string, runId: string, control: int) returns (t0: Option<int>)
    ensures t0.Some? <==>
      && rows != [] && |rows| % 3 == 0 && 1 <= control <= |rows| / 3
      && (forall i :: 0 <= i < |rows| ==> rows[i].experimentId == experimentId && rows[i].runId == runId)
      && (forall i :: 0 < i < |rows| ==> rows[i - 1].timestampNs < rows[i].timestampNs)
      && rows[3 * (control - 1)].payload.Command? && rows[3 * (control - 1) + 1].payload.AppliedReadback?
      && rows[3 * (control - 1) + 2].payload == Acknowledgement(true)
    ensures t0.Some? ==> t0.value == rows[3 * (control - 1) + 1].timestampNs
  {
    if rows == [] || |rows| % 3 != 0 { return None; }
    var controls := |rows| / 3;
    if control < 1 || control > controls { return None; }
    var i := 0;
    while i < |rows|
      invariant 0 <= i <= |rows|
      invariant forall k :: 0 <= k < i ==> rows[k].experimentId == experimentId && rows[k].runId == runId
      invariant forall k :: 0 < k < i ==> rows[k - 1].timestampNs < rows[k].timestampNs
    {
      if rows[i].experimentId != experimentId || rows[i].runId != runId { return None; }
      if i > 0 && rows[i].timestampNs <= rows[i - 1].timestampNs { return None; }
      i := i + 1;
    }
    var offset := 3 * (control - 1);
    var command, applied, ack := rows[offset], rows[offset + 1], rows[offset + 2];
    if !command.payload.Command? || !applied.payload.AppliedReadback? || !ack.payload.Acknowledgement? { return None; }
    if !ack.payload.pass { return None; }
    if !(command.timestampNs < applied.timestampNs < ack.timestampNs) { return None; }
    return Some(applied.timestampNs);
  }

  // ---- what is built is what is loaded ----

  lemma {:induction false} EventsAt(experimentId: string, runId: string, l: Logs, n: nat, j: nat)
    requires CountsMatch(l) && n <= |l.ratios| && ControlsSound(l, n) && j < n
    ensures var es := Events(experimentId, runId, l, n);
      es[3 * j..3 * j + 3] == Triplet(experimentId, runId, l, j)
  {
    if j < n - 1 {
      EventsAt(experimentId, runId, l, n - 1, j);
      var es := Events(experimentId, runId, l, n);
      assert es[3 * j..3 * j + 3] == Events(experimentId, runId, l, n - 1)[3 * j..3 * j + 3];
    }
  }

  lemma EventAt(experimentId: string, runId: string, l: Logs, n: nat, i: nat)
    requires CountsMatch(l) && n <= |l.ratios| && ControlsSound(l, n) && i < 3 * n
    ensures ControlSound(l, i / 3)
    ensures Events(experimentId, runId, l, n)[i] == Triplet(experimentId, runId, l, i / 3)[i % 3]
  {
    var j := i / 3;
    EventsAt(experimentId, runId, l, n, j);
    var es := Events(experimentId, runId, l, n);
    assert es[i] == es[3 * j..3 * j + 3][i % 3];
  }

  /** The list for the first k controls is the beginning of the full list. */
  lemma {:induction false} FirstControlsArePrefix(experimentId: string, runId: string, l: Logs, k: nat, n: nat)
    requires CountsMatch(l) && k <= n <= |l.ratios| && ControlsSound(l, n)
    ensures Events(experimentId, runId, l, k) == Events(experimentId, runId, l, n)[..3 * k]
  {
    if k < n {
      FirstControlsArePrefix(experimentId, runId, l, k, n - 1);
      var es := Events(experimentId, runId, l, n);
      assert es[..3 * k] == Events(experimentId, runId, l, n - 1)[..3 * k];
    }
  }

  lemma EventsIncrease(experimentId: string, runId: string, l: Logs, n: nat, i: nat)
    requires CountsMatch(l) && n <= |l.ratios| && ControlsSound(l, n) && 0 < i < 3 * n
    ensures Events(experimentId, runId, l, n)[i - 1].timestampNs < Events(experimentId, runId, l, n)[i].timestampNs
  {
    EventAt(experimentId, runId, l, n, i - 1);
    EventAt(experimentId, runId, l, n, i);
    hide Events;
    if i % 3 == 0 {
      assert (i - 1) / 3 == i / 3 - 1 && (i - 1) % 3 == 2;
    } else {
      assert (i - 1) / 3 == i / 3;
    }
  }

  lemma EventsIdentified(experimentId: string, runId: string, l: Logs, n: nat)
    requires CountsMatch(l) && n <= |l.ratios| && ControlsSound(l, n)
    ensures var es := Events(experimentId, runId, l, n);
      && (forall i :: 0 <= i < |es| ==> es[i].experimentId == experimentId && es[i].runId == runId)
      && (forall i, j :: 0 <= i < j < |es| ==> es[i].recordId != es[j].recordId)
  {
    hide Events;
    var es := Events(experimentId, runId, l, n);
    forall i | 0 <= i < |es| ensures es[i].experimentId == experimentId && es[i].runId == runId {
      EventAt(experimentId, runId, l, n, i);
    }
    forall i, j | 0 <= i < j < |es| ensures es[i].recordId != es[j].recordId {
      EventAt(experimentId, runId, l, n, i);
      EventAt(experimentId, runId, l, n, j);
      hide ControlSound;
      if i / 3 == j / 3 { assert i % 3 < j % 3; }
    }
  }

  lemma TripletsBuilt(experimentId: string, runId: string, l: Logs, n: nat, j: nat)
    requires CountsMatch(l) && n <= |l.ratios| && ControlsSound(l, n) && j < n
    ensures TripletSound(Events(experimentId, runId, l, n), j)
    ensures Some(Events(experimentId, runId, l, n)[3 * j + 1].timestampNs) == l.applied[j].timestampNs
  {
    hide Events;
    hide Triplet;
    hide TripletSound;
    var es := Events(experimentId, runId, l, n);
    assert ControlSound(l, j);
    EventsAt(experimentId, runId, l, n, j);
    assert es[3 * j..3 * j + 3][0] == es[3 * j] && es[3 * j..3 * j + 3][1] == es[3 * j + 1];
    assert es[3 * j..3 * j + 3][2] == es[3 * j + 2];
    if j > 0 {
      assert ControlSound(l, j - 1);
      EventsAt(experimentId, runId, l, n, j - 1);
      assert es[3 * (j - 1)..3 * (j - 1) + 3][2] == es[3 * j - 1];
    }
    hide ControlSound;
    TripletIsSound(experimentId, runId, l, es, j);
  }

  lemma TripletIsSound(experimentId: string, runId: string, l: Logs, es: seq<Event>, j: nat)
    requires CountsMatch(l) && j < |l.ratios| && ControlSound(l, j) && 3 * j + 2 < |es|
    requires var t := Triplet(experimentId, runId, l, j);
      es[3 * j] == t[0] && es[3 * j + 1] == t[1] && es[3 * j + 2] == t[2]
    requires j > 0 ==>
      ControlSound(l, j - 1) && es[3 * j - 1] == Triplet(experimentId, runId, l, j - 1)[2]
    ensures TripletSound(es, j)
    ensures Some(es[3 * j + 1].timestampNs) == l.applied[j].timestampNs
  {
  }

  /** What the three events of control j say: the requested ratio at the command's time, its PRBs at the
      readback's, and a PASS at the acknowledgement's. */
  lemma EventsSay(experimentId: string, runId: string, l: Logs, n: nat, j: nat)
    requires CountsMatch(l) && n <= |l.ratios| && ControlsSound(l, n) && j < n
    ensures var es := Events(experimentId, runId, l, n);
      var c, a, k := l.commands[j].timestampNs, l.applied[j].timestampNs, l.acks[j].timestampNs;
      && c.Some? && a.Some? && k.Some? && c.value < a.value < k.value
      && es[3 * j] == Event(experimentId, runId, RecordId(j + 1, CommandType), c.value, Command(l.ratios[j]))
      && l.applied[j].applied.Some? && 100 * l.applied[j].applied.value.1 == 52 * l.ratios[j]
      && es[3 * j + 1] == Event(experimentId, runId, RecordId(j + 1, AppliedType), a.value,
                                AppliedReadback(0, l.applied[j].applied.value.1))
      && es[3 * j + 2] ==
         Event(experimentId, runId, RecordId(j + 1, AcknowledgementType), k.value, Acknowledgement(true))
  {
    hide Events;
    EventsAt(experimentId, runId, l, n, j);
    var es := Events(experimentId, runId, l, n);
    assert ControlSound(l, j);
    assert es[3 * j..3 * j + 3][0] == es[3 * j] && es[3 * j..3 * j + 3][1] == es[3 * j + 1];
    assert es[3 * j..3 * j + 3][2] == es[3 * j + 2];
  }

  /** Every list build_events returns for one to six controls is accepted by the canonicaliser's
      loader, which recovers exactly the applied-readback times. */
  lemma BuiltTimelineLoads(experimentId: string, runId: string, l: Logs)
    requires CountsMatch(l) && ControlsSound(l, |l.ratios|) && 1 <= |l.ratios| <= MAX_CONTROLS
    ensures var es := Events(experimentId, runId, l, |l.ratios|);
      && TimelineAccepted(es, experimentId, runId)
      && (forall j :: 0 <= j < |l.ratios| ==> Some(AppliedTimes(es, |l.ratios|)[j]) == l.applied[j].timestampNs)
  {
    hide Events;
    var n := |l.ratios|;
    var es := Events(experimentId, runId, l, n);
    EventsIdentified(experimentId, runId, l, n);
    forall i | 0 < i < |es| ensures es[i - 1].timestampNs < es[i].timestampNs {
      EventsIncrease(experimentId, runId, l, n, i);
    }
    hide ControlsSound;
    forall j | 0 <= j < n ensures TripletSound(es, j) && Some(es[3 * j + 1].timestampNs) == l.applied[j].timestampNs {
      TripletsBuilt(experimentId, runId, l, n, j);
    }
    hide TripletSound;
  }

  /** An accepted timeline gives the evaluator, at every control index, the applied time the
      canonicaliser recovered there: the conditions of LoadPostT0 hold. */
  lemma AcceptedTimelineHasT0(rows: seq<Event>, experimentId: string, runId: string, control: int)
    requires TimelineAccepted(rows, experimentId, runId) && 1 <= control <= |rows| / 3
    ensures rows != [] && |rows| % 3 == 0 && |rows| <= 18
    ensures forall i, j :: 0 <= i < j < |rows| ==> rows[i].recordId != rows[j].recordId
    ensures forall i :: 0 <= i < |rows| ==> rows[i].experimentId == experimentId && rows[i].runId == runId
    ensures forall i :: 0 < i < |rows| ==> rows[i - 1].timestampNs < rows[i].timestampNs
    ensures rows[3 * (control - 1)].payload.Command? && rows[3 * (control - 1) + 1].payload.AppliedReadback?
    ensures rows[3 * (control - 1) + 2].payload == Acknowledgement(true)
    ensures rows[3 * (control - 1) + 1].payload.minPrbs == 0
    ensures 100 * rows[3 * (control - 1) + 1].payload.maxPrbs == 52 * rows[3 * (control - 1)].payload.ratio
    ensures rows[3 * (control - 1)].payload.ratio in {25, 50, 75, 100}
    ensures rows[3 * (control - 1) + 1].timestampNs == AppliedTimes(rows, |rows| / 3)[control - 1]
  {
    assert TripletSound(rows, control - 1);
  }
}
