/** The precontrol trigger executor: its gates, its single FIFO write, and the report it leaves. */
module TriggerExecutor {
  import opened Bytes
  import opened Fifo

  const FROZEN_MAX_AGE_MS: real := 800.0

  datatype Mode = NoControl | FifoMode

  /** An optional command-line integer: missing, unreadable, or a number. */
  datatype Argument = Missing | Malformed | Value(n: int)

  /** The control authorization token on the command line. */
  datatype Authorization = NoToken | WrongToken | RightToken

  /** The precontrol report as far as the executor reads it. */
  datatype Source =
    | NoFile
    | NotJson
    | GatesNotPass
    | TimingInvalid
    | Source(latestNs: int, decisionNs: int, maxAgeMs: real)

  datatype Input = Input(
    mode: Mode, source: Source, maxAgeMs: real, startOverride: Argument,
    fifoPath: bool, authorization: Authorization, token: seq<byte>)

  /** What the system answers: whether the FIFO path can be examined and is a FIFO, the clock,
      open, write and close, and whether a report file is already there. */
  datatype Env = Env(
    pathAvailable: bool, pathIsFifo: bool, clockNs: int,
    opens: bool, write: WriteReturn, closeRaises: bool, outputExists: bool)

  datatype Gate = Pass | FailClosed | FailAfterAgeGate
  datatype Control = No | Yes | UnknownAfterAttempt

  datatype Report = Report(gate: Gate, control: Control, attempts: nat, successes: nat, ageGate: Option<bool>)

  /** Closed reports a refusal and its exit code. */
  datatype Verdict = Closed(code: nat, ageGate: Option<bool>) | Admitted

  function MaxAgeNs(i: Input): int { (i.maxAgeMs * 1000000.0).Floor }

  function StartNs(i: Input, env: Env): int {
    match i.startOverride
    case Value(n) => n
    case _ => env.clockNs
  }

  /** What admits a run: the precontrol source passed with the frozen age limit, the arguments
      suit the mode, and the sample is young enough and the decision not ahead of the clock. */
  predicate GatesHold(i: Input, env: Env) {
    && i.source.Source? && i.source.maxAgeMs == i.maxAgeMs == FROZEN_MAX_AGE_MS
    && (match i.startOverride
        case Missing => true
        case Malformed => false
        case Value(n) => i.mode == NoControl && n > 0)
    && (if i.mode == NoControl then !i.fifoPath && i.authorization == NoToken
        else
          && i.authorization == RightToken && i.fifoPath && env.pathAvailable && env.pathIsFifo
          && LINE_FEED !in i.token)
    && StartNs(i, env) >= i.source.decisionNs
    && 0 <= StartNs(i, env) - i.source.latestNs <= 800_000_000
  }

  /** What each exit code reports. */
  predicate CodeMeans(code: nat, i: Input, env: Env) {
    match code
    case 20 => i.source == NoFile
    case 21 => i.source == NotJson
    case 22 => i.source == GatesNotPass
    case 23 => i.source == TimingInvalid
    case 24 => i.source.Source? && i.source.maxAgeMs != i.maxAgeMs
    case 25 => i.maxAgeMs != FROZEN_MAX_AGE_MS
    case 33 => i.startOverride != Missing && i.mode == FifoMode
    case 34 => i.startOverride == Malformed || (i.startOverride.Value? && i.startOverride.n <= 0)
    case 26 => i.mode == NoControl && (i.fifoPath || i.authorization != NoToken)
    case 27 => i.mode == FifoMode && i.authorization != RightToken
    case 28 => i.mode == FifoMode && !i.fifoPath
    case 29 => i.mode == FifoMode && !env.pathAvailable
    case 30 => i.mode == FifoMode && !env.pathIsFifo
    case 31 => i.mode == FifoMode && LINE_FEED in i.token
    case 35 => i.source.Source? && StartNs(i, env) < i.source.decisionNs
    case 32 => i.source.Source? && !(0 <= StartNs(i, env) - i.source.latestNs <= 800_000_000)
    case _ => false
  }

  /** The gates hold exactly when no code has anything to report. */
  lemma NoCodeMeans(i: Input, env: Env)
    ensures GatesHold(i, env) <==> forall code: nat :: !CodeMeans(code, i, env)
  {
    if !GatesHold(i, env) {
      assert || CodeMeans(20, i, env) || CodeMeans(21, i, env) || CodeMeans(22, i, env) || CodeMeans(23, i, env)
             || CodeMeans(24, i, env) || CodeMeans(25, i, env) || CodeMeans(33, i, env) || CodeMeans(34, i, env)
             || CodeMeans(26, i, env) || CodeMeans(27, i, env) || CodeMeans(28, i, env) || CodeMeans(29, i, env)
             || CodeMeans(30, i, env) || CodeMeans(31, i, env) || CodeMeans(35, i, env) || CodeMeans(32, i, env);
    }
  }

  /** Every check before the write, in order: it admits exactly when all gates hold, and a refusal
      names a check that failed. */
  method Gates(i: Input, env: Env) returns (v: Verdict)
    ensures v.Admitted? <==> GatesHold(i, env)
    ensures v.Admitted? <==> forall code: nat :: !CodeMeans(code, i, env)
    ensures v.Closed? ==> CodeMeans(v.code, i, env) && (v.ageGate == Some(false) <==> v.code == 32)
    ensures v.Closed? ==> v.ageGate != Some(true)
  {
    NoCodeMeans(i, env);
    if i.source == NoFile { return Closed(20, None); }
    if i.source == NotJson { return Closed(21, None); }
    if i.source == GatesNotPass { return Closed(22, None); }
    if i.source == TimingInvalid { return Closed(23, None); }
    if i.source.maxAgeMs != i.maxAgeMs { return Closed(24, None); }
    if i.maxAgeMs != FROZEN_MAX_AGE_MS { return Closed(25, None); }
    if i.startOverride != Missing {
      if i.mode != NoControl { return Closed(33, None); }
      if i.startOverride == Malformed || i.startOverride.n <= 0 { return Closed(34, None); }
    }
    if i.mode == NoControl {
      if i.fifoPath || i.authorization != NoToken { return Closed(26, None); }
    } else {
      if i.authorization != RightToken { return Closed(27, None); }
      if !i.fifoPath { return Closed(28, None); }
      if !env.pathAvailable { return Closed(29, None); }
      if !env.pathIsFifo { return Closed(30, None); }
      if LINE_FEED in i.token { return Closed(31, None); }
    }
    var startNs := StartNs(i, env);
    var ageNs := startNs - i.source.latestNs;
    var maxAgeNs := MaxAgeNs(i);
    assert maxAgeNs == 800_000_000;
    if startNs < i.source.decisionNs { return Closed(35, None); }
    if ageNs < 0 || ageNs > maxAgeNs { return Closed(32, Some(false)); }
    return Admitted;
  }

  /** The FIFO opens and takes the whole trigger line. */
  predicate WholeLine(i: Input, env: Env) { env.opens && env.write.Wrote? && env.write.n >= |i.token| + 1 }

  /** write_result: refuses to overwrite a report. */
  function Written(env: Env, r: Report): Option<Report> { if env.outputExists then None else Some(r) }

  /** main: the report, if one was written, and the exit code, if main returned.
      A report that counts no attempt is always right; one that counts a success means the whole
      trigger line went into the FIFO; and nothing is written unless every gate passed. */
  method Execute(fifo: FifoFile, i: Input, env: Env) returns (report: Option<Report>, code: Option<nat>)
    modifies fifo
    ensures fifo.calls <= old(fifo.calls) + 1
    ensures fifo.calls > old(fifo.calls) <==> i.mode == FifoMode && GatesHold(i, env) && env.opens
    ensures fifo.calls == old(fifo.calls) ==> fifo.bytes == old(fifo.bytes)
    ensures report.Some? ==> report.value.attempts == fifo.calls - old(fifo.calls)
    ensures report.Some? && report.value.successes == 1 ==>
      fifo.bytes == old(fifo.bytes) + i.token + [LINE_FEED]
    ensures report.Some? ==>
      && (report.value.control == Yes <==> report.value.successes == 1)
      && (report.value.control == No <==> report.value.attempts == 0)
      && (report.value.gate == Pass && i.mode == FifoMode <==> report.value.control == Yes)
    ensures report == None <==>
      env.outputExists || (i.mode == FifoMode && GatesHold(i, env) && WholeLine(i, env) && env.closeRaises)
    ensures report.Some? ==>
      && (report.value.gate == FailClosed <==> !GatesHold(i, env))
      && (report.value.gate == FailAfterAgeGate <==> GatesHold(i, env) && i.mode == FifoMode && !WholeLine(i, env))
      && (GatesHold(i, env) ==> report.value.ageGate == Some(true))
    ensures i.mode == NoControl && GatesHold(i, env) && !env.outputExists ==>
      report == Some(Report(Pass, No, 0, 0, Some(true))) && code == Some(0)
    ensures code == Some(0) <==> report.Some? && report.value.gate == Pass
    ensures report.Some? && report.value.gate == FailAfterAgeGate ==>
      code == if env.opens && env.closeRaises then None else Some(40)
    ensures report.Some? && report.value.gate == FailClosed ==> report.value.attempts == 0 && code.Some?
    ensures report.Some? && report.value.gate == FailClosed ==>
      CodeMeans(code.value, i, env) && (report.value.ageGate == Some(false) <==> code == Some(32))
    ensures i.mode == NoControl ==> fifo.calls == old(fifo.calls)
  {
    var verdict := Gates(i, env);
    if verdict.Closed? {
      report := Written(env, Report(FailClosed, No, 0, 0, verdict.ageGate));
      code := if report == None then None else Some(verdict.code);
      return;
    }
    if i.mode == NoControl {
      report := Written(env, Report(Pass, No, 0, 0, Some(true)));
      code := if report == None then None else Some(0);
      return;
    }
    var attempts, successes := 0, 0;
    var payload := i.token + [LINE_FEED];
    var raised := true;
    if env.opens {
      attempts := 1;
      var n := fifo.Write(payload, env.write);
      if env.write.Wrote? && n == |payload| {
        successes := 1;
        raised := false;
      }
    }
    if raised {
      // the except block, then the finally block
      report := Written(env, Report(FailAfterAgeGate, if attempts > 0 then UnknownAfterAttempt else No,
                                    attempts, successes, Some(true)));
      code := if report == None || (env.opens && env.closeRaises) then None else Some(40);
      return;
    }
    if env.closeRaises { return None, None; }
    assert old(fifo.bytes) + payload == old(fifo.bytes) + i.token + [LINE_FEED];
    report := Written(env, Report(Pass, Yes, 1, 1, Some(true)));
    code := if report == None then None else Some(0);
  }
}
