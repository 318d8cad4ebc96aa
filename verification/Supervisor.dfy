/** The bounded sequence supervisor: stationarity gates, bindings and triggers in one script. */
module Supervisor {
  import opened Bytes

  const PRE_MIN_S: int := 11
  const POST_MIN_S: int := 10
  const EXTENSION_S: int := 5
  const MAX_EXTENSIONS: nat := 2
  const PRE_MAX_S: int := 21
  const POST_MAX_S: int := 20
  const OBSERVATION_MAX_S: int := 141
  const TRANSITION_COUNT: nat := 6

  datatype Role = Pre | Post

  function Minimum(role: Role): int { if role == Pre then PRE_MIN_S else POST_MIN_S }

  function PhaseLimit(role: Role): int { if role == Pre then PRE_MAX_S else POST_MAX_S }

  datatype Reason =
    | PhaseTimeout | ExperimentTimeout | EvaluatorFailed | OutputInvalid | GateInvalid | ExtensionsExceeded
    | TrafficTerminated | BindFailed | MarkerMissing | TriggerFailed | FinalizationFailed
    | Uncaught  // any other exception: no report is written

  // ---- what a run meets ----

  /** One round of a gate: the clock before the wait, the budget left before the wait and before
      the evaluator, and what the evaluator answers. */
  datatype Evaluator =
    | CommandFails | NotJson | Says(pass: bool) | SaysOther
    | Raises  // it cannot be started, or what it prints is JSON and no object
  datatype Round = Round(elapsed: real, budget: real, budgetAfter: real, evaluator: Evaluator)

  /** run_command: with the budget used up, or a program the system cannot start, nothing is started;
      a failure is an exit code or a timeout of a command that was. */
  datatype Command = Succeeds | Fails | BudgetUsedUp | CannotStart

  /** The failure of a command, given the reason for one that was started. */
  function FailureOf(c: Command, reason: Reason): (failure: Option<Reason>)
    ensures failure == None <==> c == Succeeds
    ensures reason != ExperimentTimeout ==> (failure == Some(ExperimentTimeout) <==> c == BudgetUsedUp)
    ensures reason != Uncaught ==> (failure == Some(Uncaught) <==> c == CannotStart)
    ensures c == Fails ==> failure == Some(reason)
  {
    match c
    case Succeeds => None
    case Fails => Some(reason)
    case BudgetUsedUp => Some(ExperimentTimeout)
    case CannotStart => Some(Uncaught)
  }

  datatype Transition = Transition(trafficAlive: bool, bind: Command, marker: bool, trigger: Command)

  /** Everything a run of the supervisor depends on; gate 0 is the initial one. */
  datatype Env = Env(
    rounds: (nat, nat) -> Round, transitions: nat -> Transition, trafficAliveAtEnd: bool, finalization: Command)

  // ---- the stationarity gate ----

  /** The reasons a gate can give: the phase timeout is none of them. */
  const GATE_REASONS: set<Reason> :=
    {ExperimentTimeout, EvaluatorFailed, OutputInvalid, GateInvalid, ExtensionsExceeded, Uncaught}

  datatype GateResult = Passed(extensions: nat) | Refused(reason: Reason)

  function Target(role: Role, extensions: nat): int { Minimum(role) + extensions * EXTENSION_S }

  /** wait_for_observation; None is a completed wait. */
  method WaitForObservation(target: int, role: Role, round: Round) returns (failure: Option<Reason>)
    ensures failure == Some(PhaseTimeout) <==> target > if role == Pre then 21 else 20
    ensures failure in {None, Some(PhaseTimeout), Some(ExperimentTimeout)}
    ensures failure == None <==>
      target <= PhaseLimit(role) && round.budget > 0.0 && target as real - round.elapsed <= round.budget
  {
    if target > PhaseLimit(role) { return Some(PhaseTimeout); }
    var seconds := if target as real - round.elapsed > 0.0 then target as real - round.elapsed else 0.0;
    if round.budget <= 0.0 || seconds > round.budget { return Some(ExperimentTimeout); }
    return None;
  }

  /** There is time for the wait of round e and for its evaluator. */
  ghost predicate TimeFor(role: Role, round: Round, e: nat) {
    round.budget > 0.0 && round.budgetAfter > 0.0 && Target(role, e) as real - round.elapsed <= round.budget
  }

  /** The rounds before e, of at most three, all had time and answered no. */
  ghost predicate Reached(role: Role, rounds: nat -> Round, e: nat) {
    && e <= MAX_EXTENSIONS
    && (forall k: nat :: k < e ==> TimeFor(role, rounds(k), k) && rounds(k).evaluator == Says(false))
  }

  /** Round e, once reached, ends the gate with this result. */
  ghost predicate Outcome(role: Role, round: Round, e: nat, result: GateResult) {
    match result
    case Passed(extensions) => extensions == e && TimeFor(role, round, e) && round.evaluator == Says(true)
    case Refused(reason) =>
      match reason
      case ExperimentTimeout => !TimeFor(role, round, e)
      case EvaluatorFailed => TimeFor(role, round, e) && round.evaluator == CommandFails
      case OutputInvalid => TimeFor(role, round, e) && round.evaluator == NotJson
      case GateInvalid => TimeFor(role, round, e) && round.evaluator == SaysOther
      case Uncaught => TimeFor(role, round, e) && round.evaluator == Raises
      case ExtensionsExceeded => e == MAX_EXTENSIONS && TimeFor(role, round, e) && round.evaluator == Says(false)
      case _ => false
  }

  ghost predicate EndsIn(role: Role, rounds: nat -> Round, result: GateResult) {
    exists e: nat :: Reached(role, rounds, e) && Outcome(role, rounds(e), e, result)
  }

  /** What a round needs, in seconds: its target is 11 or 10 s and 5 s more for each extension. */
  lemma TimeForMeans(role: Role, round: Round, e: nat)
    ensures TimeFor(role, round, e) <==>
      && round.budget > 0.0 && round.budgetAfter > 0.0
      && (if role == Pre then 11.0 else 10.0) + 5.0 * e as real <= round.elapsed + round.budget
  {
  }

  /** Only one round ends the gate, and only with one result. */
  lemma OneOutcome(role: Role, rounds: nat -> Round, e: nat, result: GateResult)
    requires Reached(role, rounds, e) && Outcome(role, rounds(e), e, result)
    ensures forall k: nat, r :: Reached(role, rounds, k) && Outcome(role, rounds(k), k, r) ==> k == e && r == result
  {
    hide TimeFor;
    forall k: nat, r | Reached(role, rounds, k) && Outcome(role, rounds(k), k, r) ensures k == e && r == result {
    }
  }

  /** stationarity_gate: at most three rounds, each target within the phase limit. It passes after e
      extensions exactly when round e is reached, has time and answers yes, and every refusal is as
      exact; the phase timeout cannot occur. */
  method StationarityGate(role: Role, rounds: nat -> Round) returns (result: GateResult, target: int)
    ensures forall r :: EndsIn(role, rounds, r) <==> r == result
    ensures result.Passed? ==>
      result.extensions <= 2 && target == (if role == Pre then 11 else 10) + 5 * result.extensions
    ensures result.Refused? ==> result.reason in GATE_REASONS
    ensures Minimum(role) <= target <= PhaseLimit(role)
  {
    hide Reached;
    var extensions := 0;
    target := Target(role, 0);
    result := Refused(ExperimentTimeout);
    var ended := false;
    assert Reached(role, rounds, 0) by { NoneBefore(role, rounds); }
    while !ended
      invariant 0 <= extensions <= MAX_EXTENSIONS
      invariant Reached(role, rounds, extensions)
      invariant ended ==> Outcome(role, rounds(extensions), extensions, result) && target == Target(role, extensions)
      invariant Minimum(role) <= target <= PhaseLimit(role)
      decreases MAX_EXTENSIONS - extensions, if ended then 0 else 1
    {
      var round := rounds(extensions);
      target := Target(role, extensions);
      var failure := WaitForObservation(target, role, round);
      ended := true;
      if failure.Some? {
        result := Refused(failure.value);
      } else if round.budgetAfter <= 0.0 {
        result := Refused(ExperimentTimeout);
      } else {
        match round.evaluator {
          case CommandFails => result := Refused(EvaluatorFailed);
          case NotJson => result := Refused(OutputInvalid);
          case SaysOther => result := Refused(GateInvalid);
          case Raises => result := Refused(Uncaught);
          case Says(pass) =>
            if pass {
              result := Passed(extensions);
            } else if extensions >= MAX_EXTENSIONS {
              result := Refused(ExtensionsExceeded);
            } else {
              OneMore(role, rounds, extensions);
              ended, extensions := false, extensions + 1;
            }
        }
      }
    }
    OneOutcome(role, rounds, extensions, result);
  }

  lemma NoneBefore(role: Role, rounds: nat -> Round)
    ensures Reached(role, rounds, 0)
  {
  }

  lemma OneMore(role: Role, rounds: nat -> Round, e: nat)
    requires Reached(role, rounds, e) && e < MAX_EXTENSIONS
    requires TimeFor(role, rounds(e), e) && rounds(e).evaluator == Says(false)
    ensures Reached(role, rounds, e + 1)
  {
  }

  // ---- the script of a run ----

  /** What a run does, in order: a gate passed, a binding written, a trigger command started. */
  datatype Event = PassEvent | BindEvent(k: nat) | TriggerEvent(k: nat)

  /** The whole sequence for n transitions. */
  function Script(n: nat): (s: seq<Event>)
    ensures |s| == 3 * n + 1
  {
    if n == 0 then [PassEvent] else Script(n - 1) + [BindEvent(n - 1), TriggerEvent(n - 1), PassEvent]
  }

  lemma ScriptNext(k: nat)
    ensures Script(k + 1) == Script(k) + [BindEvent(k), TriggerEvent(k), PassEvent]
    ensures Script(k)[3 * k] == PassEvent && Script(0) == [PassEvent]
  {
  }

  lemma {:induction false} ScriptsExtend(m: nat, n: nat)
    requires m <= n
    ensures Script(m) <= Script(n)
  {
    if m < n { ScriptsExtend(m, n - 1); }
  }

  lemma {:induction false} ScriptAt(n: nat, i: nat)
    requires i < |Script(n)|
    ensures Script(n)[i] ==
      (if i % 3 == 0 then PassEvent else if i % 3 == 1 then BindEvent(i / 3) else TriggerEvent(i / 3))
  {
    if n > 0 && i < 3 * n - 2 { ScriptAt(n - 1, i); }
  }

  /** In any prefix of the script every trigger comes directly after its binding, which comes
      directly after a gate passed since the previous trigger; transitions go in order. */
  lemma TriggersAreGated(n: nat, log: seq<Event>, i: nat)
    requires log <= Script(n) && i < |log| && log[i].TriggerEvent?
    ensures i >= 2 && log[i - 1] == BindEvent(log[i].k) && log[i - 2] == PassEvent
    ensures i == 3 * log[i].k + 2
    ensures i >= 3 ==> log[i - 3] == TriggerEvent(log[i].k - 1)
  {
    assert log[i] == Script(n)[i];
    ScriptAt(n, i);
    assert i % 3 == 2;
    ScriptAt(n, i - 1);
    ScriptAt(n, i - 2);
    if i >= 3 { ScriptAt(n, i - 3); }
  }

  // ---- how far a run goes ----

  /** Gate k: the initial one, or the one after transition k - 1. */
  function RoleOf(k: nat): Role { if k == 0 then Pre else Post }

  function RoundsOf(env: Env, k: nat): (rounds: nat -> Round)
    ensures forall e: nat :: rounds(e) == env.rounds(k, e)
  {
    (e: nat) => env.rounds(k, e)
  }

  ghost predicate GatePasses(env: Env, k: nat) { exists e: nat :: EndsIn(RoleOf(k), RoundsOf(env, k), Passed(e)) }

  /** What event i of the script takes, once those before it have happened: a gate passes, after a
      trigger that succeeded; a binding command succeeds while the traffic runs; a trigger command is
      started after the binding command printed its marker. */
  ghost predicate Happens(env: Env, i: nat) {
    var k := i / 3;
    if i % 3 == 0 then GatePasses(env, k) && (i > 0 ==> env.transitions(k - 1).trigger == Succeeds)
    else if i % 3 == 1 then env.transitions(k).trafficAlive && env.transitions(k).bind == Succeeds
    else env.transitions(k).marker && env.transitions(k).trigger in {Succeeds, Fails}
  }

  /** Why a run that did n events went no further. */
  ghost predicate Explained(env: Env, n: nat, failure: Option<Reason>) {
    var k := n / 3;
    if n == 3 * TRANSITION_COUNT + 1 then
      failure == if env.trafficAliveAtEnd then FailureOf(env.finalization, FinalizationFailed)
                 else Some(TrafficTerminated)
    else if n % 3 == 0 then
      if n > 0 && env.transitions(k - 1).trigger == Fails then failure == Some(TriggerFailed)
      else failure.Some? && EndsIn(RoleOf(k), RoundsOf(env, k), Refused(failure.value))
    else if n % 3 == 1 then
      failure == if env.transitions(k).trafficAlive then FailureOf(env.transitions(k).bind, BindFailed)
                 else Some(TrafficTerminated)
    else
      failure == if env.transitions(k).marker then FailureOf(env.transitions(k).trigger, TriggerFailed)
                 else Some(MarkerMissing)
  }

  /** The three events of transition k. */
  lemma HappensIs(env: Env, k: nat)
    ensures Happens(env, 3 * k + 1) <==> env.transitions(k).trafficAlive && env.transitions(k).bind == Succeeds
    ensures Happens(env, 3 * k + 2) <==> env.transitions(k).marker && env.transitions(k).trigger in {Succeeds, Fails}
    ensures Happens(env, 3 * k + 3) <==> GatePasses(env, k + 1) && env.transitions(k).trigger == Succeeds
  {
    hide GatePasses;
  }

  lemma ExplainedIs(env: Env, k: nat, failure: Option<Reason>)
    requires k < TRANSITION_COUNT
    ensures var t := env.transitions(k);
      && (Explained(env, 3 * k + 1, failure) <==>
            failure == if t.trafficAlive then FailureOf(t.bind, BindFailed) else Some(TrafficTerminated))
      && (Explained(env, 3 * k + 2, failure) <==>
            failure == if t.marker then FailureOf(t.trigger, TriggerFailed) else Some(MarkerMissing))
      && (Explained(env, 3 * k + 3, failure) <==>
            if t.trigger == Fails then failure == Some(TriggerFailed)
            else failure.Some? && EndsIn(Post, RoundsOf(env, k + 1), Refused(failure.value)))
  {
    hide EndsIn;
    hide FailureOf;
  }

  /** The triggers started in a prefix of the script. */
  function Started(log: seq<Event>): nat { |log| / 3 }

  /** The run ended between counting a trigger attempt and starting its command. */
  predicate CountedNotStarted(failure: Option<Reason>, log: seq<Event>) {
    failure in {Some(ExperimentTimeout), Some(Uncaught)} && log != [] && log[|log| - 1].BindEvent?
  }

  function TriggersIn(log: seq<Event>): nat {
    if log == [] then 0 else TriggersIn(log[..|log| - 1]) + if log[|log| - 1].TriggerEvent? then 1 else 0
  }

  /** The started triggers are those in the log. */
  lemma {:induction false} StartedCounts(n: nat, log: seq<Event>)
    requires log <= Script(n)
    ensures Started(log) == TriggersIn(log)
  {
    hide Script;
    if log != [] {
      var m := |log| - 1;
      StartedCounts(n, log[..m]);
      assert log[m] == Script(n)[m];
      ScriptAt(n, m);
    }
  }

  /** The report of a run and, as history, what it did and how long it was told to observe. */
  class Run {
    var attempts: nat
    var successes: nat
    var controlExecuted: bool
    var passed: bool
    ghost var log: seq<Event>
    ghost var observed: int

    constructor ()
      ensures attempts == successes == 0 && !controlExecuted && !passed && log == [] && observed == 0
    {
      attempts, successes, controlExecuted, passed, log, observed := 0, 0, false, false, [], 0;
    }

    /** A gate that passes is the next event of the script. */
    method Gate(role: Role, rounds: nat -> Round) returns (result: GateResult)
      modifies this`log, this`observed
      ensures log == old(log) + if result.Passed? then [PassEvent] else []
      ensures result.Passed? ==> result.extensions <= MAX_EXTENSIONS
      ensures forall r :: EndsIn(role, rounds, r) <==> r == result
      ensures result.Refused? ==> result.reason in GATE_REASONS
      ensures old(observed) < observed <= old(observed) + PhaseLimit(role)
    {
      var target;
      result, target := StationarityGate(role, rounds);
      observed := observed + target;
      if result.Passed? { log := log + [PassEvent]; }
    }

    /** One transition of run_live: traffic, binding, trigger, gate. None is success. It goes on
        exactly as far as its events happen, and its failure is that of the first that does not. */
    method OneTransition(k: nat, env: Env) returns (failure: Option<Reason>)
      requires attempts == successes == k < TRANSITION_COUNT && log == Script(k)
      modifies this
      ensures log <= Script(k + 1) && |Script(k)| <= |log| && (failure == None <==> log == Script(k + 1))
      ensures forall i :: |Script(k)| <= i < |log| ==> Happens(env, i)
      ensures failure != None ==> !Happens(env, |log|) && Explained(env, |log|, failure)
      ensures passed == old(passed)
      ensures failure == None ==> successes == k + 1
      ensures attempts == Started(log) + if CountedNotStarted(failure, log) then 1 else 0
      ensures successes >= k && Started(log) == successes + if failure == Some(TriggerFailed) then 1 else 0
      ensures controlExecuted == (old(controlExecuted) || successes == k + 1)
      ensures old(observed) <= observed <= old(observed) + POST_MAX_S
      ensures failure != Some(PhaseTimeout)
    {
      hide EndsIn;
      hide GatePasses;
      hide Happens;
      hide Explained;
      hide Script;
      hide FailureOf;
      hide RoundsOf;
      ScriptNext(k);
      var t := env.transitions(k);
      HappensIs(env, k);
      if !t.trafficAlive {
        ExplainedIs(env, k, Some(TrafficTerminated));
        return Some(TrafficTerminated);
      }
      if !t.bind.Succeeds? {
        ExplainedIs(env, k, FailureOf(t.bind, BindFailed));
        return FailureOf(t.bind, BindFailed);
      }
      log := log + [BindEvent(k)];
      if !t.marker {
        ExplainedIs(env, k, Some(MarkerMissing));
        return Some(MarkerMissing);
      }
      attempts := attempts + 1;
      if t.trigger.BudgetUsedUp? || t.trigger.CannotStart? {
        ExplainedIs(env, k, FailureOf(t.trigger, TriggerFailed));
        return FailureOf(t.trigger, TriggerFailed);
      }
      log := log + [TriggerEvent(k)];
      if t.trigger.Fails? {
        ExplainedIs(env, k, Some(TriggerFailed));
        return Some(TriggerFailed);
      }
      successes := successes + 1;
      controlExecuted := true;
      var result := Gate(Post, RoundsOf(env, k + 1));
      failure := if result.Refused? then Some(result.reason) else None;
      PassedIs(env, k + 1, result);
      ExplainedIs(env, k, failure);
    }

    /** run_live: it does exactly the longest prefix of the script whose events happen, and its failure
        is that of the first event that does not; it passes exactly when all nineteen happen, the
        traffic still runs and the finalization succeeds. It is never told to observe longer than 141
        seconds. The attempts it reports are the triggers it started, and one more exactly when it
        ended between counting an attempt and starting its command. */
    method RunLive(env: Env) returns (failure: Option<Reason>)
      requires attempts == successes == 0 && !controlExecuted && !passed && log == [] && observed == 0
      modifies this
      ensures log <= Script(TRANSITION_COUNT)
      ensures forall i :: 0 <= i < |log| ==> Happens(env, i)
      ensures |log| < |Script(TRANSITION_COUNT)| ==> !Happens(env, |log|)
      ensures Explained(env, |log|, failure)
      ensures passed <==> failure == None
      ensures passed <==>
        && (forall i :: 0 <= i < |Script(TRANSITION_COUNT)| ==> Happens(env, i))
        && env.trafficAliveAtEnd && env.finalization == Succeeds
      ensures attempts == Started(log) + if CountedNotStarted(failure, log) then 1 else 0
      ensures Started(log) == successes + if failure == Some(TriggerFailed) then 1 else 0
      ensures controlExecuted <==> successes > 0
      ensures passed ==> log == Script(TRANSITION_COUNT) && |log| == 19 && successes == 6
      ensures observed <= 141
      ensures failure != Some(PhaseTimeout)
    {
      hide EndsIn;
      hide GatePasses;
      hide Happens;
      hide Explained;
      hide Script;
      hide FailureOf;
      ScriptNext(0);
      ScriptsExtend(0, TRANSITION_COUNT);
      var pre := Gate(Pre, RoundsOf(env, 0));
      PassedIs(env, 0, pre);
      FirstGate(env);
      if pre.Refused? { return Some(pre.reason); }
      var k: nat := 0;
      while k < TRANSITION_COUNT
        invariant 0 <= k <= TRANSITION_COUNT
        invariant log == Script(k) && attempts == successes == k && !passed
        invariant forall i :: 0 <= i < |log| ==> Happens(env, i)
        invariant controlExecuted <==> k > 0
        invariant observed <= PRE_MAX_S + k * POST_MAX_S
      {
        failure := OneTransition(k, env);
        ScriptsExtend(k + 1, TRANSITION_COUNT);
        if failure != None { return; }
        k := k + 1;
      }
      if !env.trafficAliveAtEnd {
        LastExplained(env, Some(TrafficTerminated));
        return Some(TrafficTerminated);
      }
      LastExplained(env, FailureOf(env.finalization, FinalizationFailed));
      ScriptNext(TRANSITION_COUNT);
      if !env.finalization.Succeeds? { return FailureOf(env.finalization, FinalizationFailed); }
      passed := true;
      failure := None;
    }

    static lemma PassedIs(env: Env, k: nat, result: GateResult)
      requires forall r :: EndsIn(RoleOf(k), RoundsOf(env, k), r) <==> r == result
      ensures GatePasses(env, k) <==> result.Passed?
    {
      hide EndsIn;
      if result.Passed? { assert EndsIn(RoleOf(k), RoundsOf(env, k), Passed(result.extensions)); }
    }

    static lemma FirstGate(env: Env)
      ensures Happens(env, 0) <==> GatePasses(env, 0)
      ensures forall f: Option<Reason> ::
        Explained(env, 0, f) <==> f.Some? && EndsIn(Pre, RoundsOf(env, 0), Refused(f.value))
    {
      hide EndsIn;
      hide GatePasses;
    }

    static lemma LastExplained(env: Env, f: Option<Reason>)
      ensures Explained(env, 3 * TRANSITION_COUNT + 1, f) <==>
        f == if env.trafficAliveAtEnd then FailureOf(env.finalization, FinalizationFailed) else Some(TrafficTerminated)
    {
      hide EndsIn;
      hide FailureOf;
    }
  }
}
