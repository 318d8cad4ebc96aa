/** One post-validation process past its claims: the single FIFO write and the status it records. */
module PostvalTrigger {
  import opened Bytes
  import opened Fifo

  const MAX_AGE_NS: int := 800_000_000

  /** Everything fifo_once depends on: the checks before the write, the clock readings, what
      os.write and os.close do. */
  datatype Env = Env(
    isFifo: bool, opens: bool, stillFifo: bool,
    gateNs: int, write: WriteReturn, completedNs: int, closeRaises: bool)

  datatype Sample = Sample(latestNs: int)

  datatype Outcome =
    | Completed(age: int, inTime: bool)
    | AttemptedUnknown        // FIFO_ATTEMPTED_OUTCOME_UNKNOWN_NO_REPLAY
    | RaisedBefore            // a check failed before the write
    | CloseRaised             // os.close in the finally block replaced whatever came before

  predicate TokenValid(token: seq<byte>) { token != [] && LINE_FEED !in token && 0 !in token }

  function Payload(token: seq<byte>): seq<byte> { token + [LINE_FEED] }

  /** The FIFO is open. */
  predicate Opened(token: seq<byte>, env: Env) { env.isFifo && TokenValid(token) && env.opens }

  /** fifo_once gets as far as calling os.write. */
  predicate Attempts(token: seq<byte>, sample: Sample, env: Env) {
    Opened(token, env) && env.stillFifo && 0 <= env.gateNs - sample.latestNs <= MAX_AGE_NS
  }

  predicate WholeWrite(token: seq<byte>, env: Env) {
    env.write.Wrote? && Count(Payload(token), env.write) == |Payload(token)|
  }

  function FifoOutcome(token: seq<byte>, sample: Sample, env: Env): Outcome {
    if !Opened(token, env) then RaisedBefore
    else if env.closeRaises then CloseRaised
    else if !Attempts(token, sample, env) then RaisedBefore
    else if !WholeWrite(token, env) then AttemptedUnknown
    else Completed(env.gateNs - sample.latestNs, 0 <= env.completedNs - sample.latestNs <= MAX_AGE_NS)
  }

  /** fifo_once */
  method FifoOnce(fifo: FifoFile, token: seq<byte>, sample: Sample, env: Env) returns (outcome: Outcome)
    modifies fifo
    ensures outcome == FifoOutcome(token, sample, env)
    ensures outcome.Completed? <==> Attempts(token, sample, env) && WholeWrite(token, env) && !env.closeRaises
    ensures outcome.Completed? ==>
      && outcome.age == env.gateNs - sample.latestNs
      && (outcome.inTime <==> 0 <= env.completedNs - sample.latestNs <= 800_000_000)
    ensures outcome == AttemptedUnknown <==>
      Attempts(token, sample, env) && !WholeWrite(token, env) && !env.closeRaises
    ensures outcome == CloseRaised <==> Opened(token, env) && env.closeRaises
    ensures fifo.calls == old(fifo.calls) + if Attempts(token, sample, env) then 1 else 0
    ensures fifo.bytes == old(fifo.bytes) +
      if Attempts(token, sample, env) then Delivered(Payload(token), env.write) else []
  {
    if !env.isFifo || token == [] || LINE_FEED in token || 0 in token { return RaisedBefore; }
    var payload := token + [LINE_FEED];
    if !env.opens { return RaisedBefore; }
    var attempted := false;
    var age := env.gateNs - sample.latestNs;
    if env.stillFifo && 0 <= age <= MAX_AGE_NS {
      attempted := true;
      var n := fifo.Write(payload, env.write);
      if env.write.Wrote? && n == |payload| {
        outcome := Completed(age, 0 <= env.completedNs - sample.latestNs <= MAX_AGE_NS);
      } else {
        outcome := AttemptedUnknown;
      }
    } else {
      outcome := RaisedBefore;
    }
    if env.closeRaises { outcome := CloseRaised; }
  }

  // ---- the recorded status ----

  datatype Recorded = Known(n: nat) | Unknown
  datatype Control = No | Yes | UnknownNoReplay | UnknownAfterAttempt
  datatype Gate = FailClosed | FailClosedUnknown | PassPendingReadback

  datatype Status = Status(attempts: Recorded, successes: Recorded, control: Control, gate: Gate, dispatched: bool)

  const INITIAL := Status(Known(0), Known(0), No, FailClosed, false)

  /** The status live records; sample is None when waiting for it raised. */
  function LiveStatus(token: seq<byte>, sample: Option<Sample>, env: Env): Status {
    if sample == None then INITIAL.(gate := FailClosedUnknown)
    else
      var status := INITIAL.(dispatched := true);
      match FifoOutcome(token, sample.value, env)
      case Completed(_, inTime) =>
        if inTime then Status(Known(1), Known(1), Yes, PassPendingReadback, true)
        else Status(Known(1), Known(1), UnknownNoReplay, FailClosedUnknown, true)
      case AttemptedUnknown => Status(Unknown, Unknown, UnknownAfterAttempt, FailClosedUnknown, true)
      case _ => status.(gate := FailClosedUnknown)
  }

  /** live from its try block to the record its finally block writes. */
  method Live(fifo: FifoFile, token: seq<byte>, sample: Option<Sample>, env: Env) returns (status: Status, raises: bool)
    modifies fifo
    ensures status == LiveStatus(token, sample, env)
    ensures raises <==> status.gate != PassPendingReadback
    ensures fifo.calls == old(fifo.calls) + if sample.Some? && Attempts(token, sample.value, env) then 1 else 0
    ensures fifo.bytes == old(fifo.bytes) +
      if sample.Some? && Attempts(token, sample.value, env) then Delivered(Payload(token), env.write) else []
  {
    status, raises := INITIAL, false;
    if sample == None {
      raises := true;
    } else {
      status := status.(dispatched := true);
      var outcome := FifoOnce(fifo, token, sample.value, env);
      match outcome {
        case Completed(age, inTime) =>
          status := status.(attempts := Known(1), successes := Known(1),
                            control := if inTime then Yes else UnknownNoReplay);
          if inTime { status := status.(gate := PassPendingReadback); } else { raises := true; }
        case AttemptedUnknown =>
          status := status.(control := UnknownAfterAttempt, attempts := Unknown, successes := Unknown);
          raises := true;
        case RaisedBefore =>
          raises := true;
        case CloseRaised =>
          raises := true;
      }
    }
    if raises { status := status.(gate := FailClosedUnknown); }
  }

  // ---- what the record says ----

  predicate WriteMade(token: seq<byte>, sample: Option<Sample>, env: Env) {
    sample.Some? && Attempts(token, sample.value, env)
  }

  /** A time is at most 800 ms after the sample, and not before it. */
  predicate InTime(ns: int, sample: Sample) { 0 <= ns - sample.latestNs <= 800_000_000 }

  /** What a record says, in terms of what the system did: the counts, whether control was executed,
      and the gate. A write is made exactly when the FIFO opens and is one, the token is one line, and
      the sample is fresh; the gate passes exactly for a whole write completed in time. */
  lemma RecordedAttempts(token: seq<byte>, x: Sample, env: Env)
    ensures var s := LiveStatus(token, Some(x), env);
      var wrote := && env.isFifo && env.opens && env.stillFifo && InTime(env.gateNs, x)
                   && token != [] && LINE_FEED !in token && 0 !in token;
      var whole := env.write.Wrote? && env.write.n >= |token| + 1;
      && (WriteMade(token, Some(x), env) <==> wrote)
      && (whole <==> Delivered(Payload(token), env.write) == token + [LINE_FEED])
      && (s.attempts == Known(0) <==> !wrote || env.closeRaises)
      && (s.attempts == Known(1) <==> wrote && !env.closeRaises && whole)
      && (s.attempts == Unknown <==> wrote && !env.closeRaises && !whole)
      && s.attempts in {Known(0), Known(1), Unknown} && s.successes == s.attempts
      && (s.control == No <==> s.attempts == Known(0))
      && (s.control == Yes <==> wrote && !env.closeRaises && whole && InTime(env.completedNs, x))
      && (s.control == UnknownNoReplay <==> wrote && !env.closeRaises && whole && !InTime(env.completedNs, x))
      && (s.gate == PassPendingReadback <==> s.control == Yes)
      && s.gate != FailClosed && s.dispatched
  {
    if env.write.Wrote? && env.write.n < |token| + 1 { assert |Delivered(Payload(token), env.write)| == env.write.n; }
  }

  /** Without a sample nothing is dispatched, and the record says so. */
  lemma NoSampleNoDispatch(token: seq<byte>, env: Env)
    ensures LiveStatus(token, None, env) == Status(Known(0), Known(0), No, FailClosedUnknown, false)
    ensures !WriteMade(token, None, env)
  {
  }

  /** A run that writes the whole trigger line and records that it made no attempt. */
  lemma CloseErrorHidesTheWrite()
    ensures var token, sample := [84], Some(Sample(0));
      var env := Env(true, true, true, 1, Wrote(2), 2, true);
      && WriteMade(token, sample, env)
      && Delivered(Payload(token), env.write) == Payload(token)
      && LiveStatus(token, sample, env).attempts == Known(0)
      && LiveStatus(token, sample, env).control == No
  {
  }
}
