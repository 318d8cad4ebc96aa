/** The transaction-state validator: records accepted one by one, and what holds of every chain
    they form. */
module TransactionChain {
  import opened Bytes

  datatype State =
    | New | Deployed | PlatformQualified | InitialStateVerified | ActuatorArmed | WorkloadReady | PrestepAdmitted
    | TriggeredExactlyOnce | AppliedVerified | PoststepComplete | InvalidPosttrigger | ScientificallyAdjudicated
    | AbortedPretrigger | Closed | Destroyed

  const PRETRIGGER: set<State> :=
    {New, Deployed, PlatformQualified, InitialStateVerified, ActuatorArmed, WorkloadReady, PrestepAdmitted,
     AbortedPretrigger}

  const FAILURE: set<State> := {AbortedPretrigger, InvalidPosttrigger}

  /** LEGAL_TRANSITIONS */
  predicate Legal(s: State, t: State) {
    match s
    case New => t in {Deployed, AbortedPretrigger}
    case Deployed => t in {PlatformQualified, AbortedPretrigger}
    case PlatformQualified => t in {InitialStateVerified, AbortedPretrigger}
    case InitialStateVerified => t in {ActuatorArmed, AbortedPretrigger}
    case ActuatorArmed => t in {WorkloadReady, AbortedPretrigger}
    case WorkloadReady => t in {PrestepAdmitted, AbortedPretrigger}
    case PrestepAdmitted => t in {TriggeredExactlyOnce, AbortedPretrigger, InvalidPosttrigger}
    case TriggeredExactlyOnce => t in {AppliedVerified, InvalidPosttrigger}
    case AppliedVerified => t in {PoststepComplete, InvalidPosttrigger}
    case PoststepComplete => t in {ScientificallyAdjudicated, InvalidPosttrigger}
    case InvalidPosttrigger => t == ScientificallyAdjudicated
    case ScientificallyAdjudicated => t == Closed
    case AbortedPretrigger => t == Closed
    case Closed => t == Destroyed
    case Destroyed => false
  }

  datatype FailureClass = NoFailure | PlatformFailure | ToolingFailure
  datatype Consumed = No | Yes | Unknown
  datatype Replay = NotApplicable | NeverRepeat | NeverAutomaticallyReplay
  datatype Adjudication = NotAdjudicated | Valid | Invalid
  datatype Trigger = Trigger(attempts: nat, successes: nat, consumed: Consumed, replay: Replay)

  const UNTRIGGERED := Trigger(0, 0, No, NotApplicable)
  const CONFIRMED := Trigger(1, 1, Yes, NeverRepeat)
  const AMBIGUOUS := Trigger(1, 0, Unknown, NeverAutomaticallyReplay)

  /** The fields that may never change. */
  datatype Identity = Identity(
    transactionId: string, experimentId: string, runId: string, transitionLabel: string,
    repositoryHead: string, protocolIdentity: string, initialPrbRequired: int)

  /** The fields that are null until they are written once. */
  datatype WriteOnce = WriteOnce(
    platformQualification: Option<string>, runtimeIncarnation: Option<string>, initialPrbObserved: Option<int>,
    receiverWorkload: Option<string>, actuator: Option<string>, appliedReadback: Option<string>,
    closeoutChecksum: Option<string>)

  datatype Record = Record(
    state: State, previousState: Option<State>, decisionNs: int,
    identity: Identity, once: WriteOnce, trigger: Trigger,
    failureClass: FailureClass, failureReason: Option<string>,
    precontrolPass: bool, poststepPass: bool, adjudication: Adjudication)

  predicate Nonempty(s: Option<string>) { s.Some? && s.value != "" }

  // ---- the schema ----

  predicate Digit(c: char) { '0' <= c <= '9' }
  predicate UpperOrDigit(c: char) { 'A' <= c <= 'Z' || Digit(c) }
  predicate LowerHex(c: char) { Digit(c) || 'a' <= c <= 'f' }

  predicate Digits(s: string, n: nat) { |s| == n && forall i :: 0 <= i < n ==> Digit(s[i]) }

  predicate Hex(s: string, n: nat) { |s| == n && forall i :: 0 <= i < n ==> LowerHex(s[i]) }

  /** A prefix, then eight digits, T, six digits, Z, a dash and three digits. */
  predicate Stamped(prefix: string, s: string) {
    && |s| == |prefix| + 20 && s[..|prefix|] == prefix
    && var t := s[|prefix|..];
       Digits(t[..8], 8) && t[8] == 'T' && Digits(t[9..15], 6) && t[15] == 'Z' && t[16] == '-' && Digits(t[17..], 3)
  }

  /** EXP, eight digits, a word, words and dashes, and a two-digit R number, joined by dashes. */
  predicate ExperimentShape(s: string) {
    && |s| >= 20 && s[..4] == "EXP-" && Digits(s[4..12], 8) && s[12] == '-'
    && s[|s| - 4..|s| - 2] == "-R" && Digits(s[|s| - 2..], 2)
    && var middle := s[13..|s| - 4];
       exists k :: 0 < k < |middle| - 1 && middle[k] == '-'
                   && (forall i :: 0 <= i < k ==> UpperOrDigit(middle[i]))
                   && (forall i :: k < i < |middle| ==> UpperOrDigit(middle[i]) || middle[i] == '-')
  }

  /** The patterns end in a dollar sign, which also matches before a final line feed. */
  function Trimmed(s: string): string { if s != "" && s[|s| - 1] == '\n' then s[..|s| - 1] else s }

  const PRB_STATES: set<int> := {13, 26, 39, 52}

  predicate IdentityConforms(i: Identity) {
    && Stamped("TXN-", Trimmed(i.transactionId)) && ExperimentShape(Trimmed(i.experimentId))
    && Stamped("RUN-", Trimmed(i.runId))
    && i.transitionLabel in {"T1", "T2", "T3", "T4", "T5", "T6"}
    && Hex(Trimmed(i.repositoryHead), 40) && i.protocolIdentity != "" && i.initialPrbRequired in PRB_STATES
  }

  predicate NullOrNonempty(s: Option<string>) { s.Some? ==> s.value != "" }

  predicate WriteOnceConforms(o: WriteOnce) {
    && NullOrNonempty(o.platformQualification) && NullOrNonempty(o.runtimeIncarnation)
    && NullOrNonempty(o.receiverWorkload) && NullOrNonempty(o.actuator) && NullOrNonempty(o.appliedReadback)
    && (o.initialPrbObserved.Some? ==> o.initialPrbObserved.value in PRB_STATES)
    && (o.closeoutChecksum.Some? ==> Hex(Trimmed(o.closeoutChecksum.value), 64))
  }

  /** The conditional rules on state, trigger and failure. */
  predicate ConditionsHold(r: Record) {
    && (r.state == New ==> r.previousState == None && r.trigger == UNTRIGGERED)
    && (r.state in PRETRIGGER ==>
          r.trigger.consumed == No && r.trigger.attempts == 0 && r.trigger.successes == 0)
    && (r.state in {TriggeredExactlyOnce, AppliedVerified, PoststepComplete} ==> r.trigger == CONFIRMED)
    && (r.state == InvalidPosttrigger ==> r.trigger in {CONFIRMED, AMBIGUOUS} && r.failureClass != NoFailure)
    && (r.state == AbortedPretrigger ==> r.failureClass != NoFailure)
    && (r.failureClass == NoFailure <==> r.failureReason == None)
    && (r.state == InitialStateVerified ==> r.once.initialPrbObserved.Some?)
    && (r.state in {AppliedVerified, PoststepComplete} ==> r.once.appliedReadback.Some?)
  }

  /** What validate_record_schema accepts. Enumerations the schema closes are closed types here;
      the schema version and the evidence list take no part in what follows. */
  predicate SchemaAccepted(r: Record) {
    && IdentityConforms(r.identity) && WriteOnceConforms(r.once) && ConditionsHold(r)
    && r.decisionNs >= 1
    && (r.failureReason.Some? ==> r.failureReason.value != "" && r.failureReason.value != "NONE")
    && r.trigger.attempts <= 1 && r.trigger.successes <= 1
  }

  // ---- one record ----

  const ACTIVE: set<State> :=
    {New, Deployed, PlatformQualified, InitialStateVerified, ActuatorArmed, WorkloadReady, PrestepAdmitted,
     TriggeredExactlyOnce, AppliedVerified, PoststepComplete}

  /** How far the happy path has come, for the fields each stage requires. */
  predicate AtLeast(s: State, stage: State) {
    s in {PlatformQualified, InitialStateVerified, ActuatorArmed, WorkloadReady, PrestepAdmitted,
          TriggeredExactlyOnce, AppliedVerified, PoststepComplete}
    && stage in {PlatformQualified, InitialStateVerified, ActuatorArmed, WorkloadReady, PrestepAdmitted,
                 AppliedVerified}
    && Rank(s) >= Rank(stage)
  }

  /** validate_record_state_invariants */
  predicate RecordAccepted(r: Record) {
    && (r.state in ACTIVE ==> r.failureClass == NoFailure && r.failureReason == None)
    && (r.state in FAILURE ==> r.failureClass in {PlatformFailure, ToolingFailure} && r.failureReason != None)
    && (r.state in PRETRIGGER ==> r.trigger == UNTRIGGERED)
    && (r.state == TriggeredExactlyOnce ==> r.trigger == CONFIRMED)
    && (AtLeast(r.state, PlatformQualified) ==>
          Nonempty(r.once.platformQualification) && Nonempty(r.once.runtimeIncarnation))
    && (AtLeast(r.state, InitialStateVerified) ==> r.once.initialPrbObserved == Some(r.identity.initialPrbRequired))
    && (AtLeast(r.state, ActuatorArmed) ==> Nonempty(r.once.actuator))
    && (AtLeast(r.state, WorkloadReady) ==> Nonempty(r.once.receiverWorkload))
    && (AtLeast(r.state, PrestepAdmitted) ==> r.precontrolPass)
    && (AtLeast(r.state, AppliedVerified) ==> Nonempty(r.once.appliedReadback))
    && (r.state == PoststepComplete ==> r.poststepPass)
    && (r.state == ScientificallyAdjudicated ==> r.adjudication in {Valid, Invalid})
    && (r.state in {Closed, Destroyed} ==> Nonempty(r.once.closeoutChecksum))
  }

  /** A record given without a predecessor: the schema, then validate_new_record. */
  predicate FirstAccepted(r: Record) {
    SchemaAccepted(r) && r.state == New && r.previousState == None && RecordAccepted(r)
  }

  // ---- two records ----

  predicate Kept<T(==)>(before: Option<T>, after: Option<T>) { before.Some? ==> after == before }

  /** validate_identity_continuity */
  predicate IdentityContinues(p: Record, r: Record) {
    && p.identity == r.identity
    && Kept(p.once.platformQualification, r.once.platformQualification)
    && Kept(p.once.runtimeIncarnation, r.once.runtimeIncarnation)
    && Kept(p.once.initialPrbObserved, r.once.initialPrbObserved)
    && Kept(p.once.receiverWorkload, r.once.receiverWorkload)
    && Kept(p.once.actuator, r.once.actuator)
    && Kept(p.once.appliedReadback, r.once.appliedReadback)
    && Kept(p.once.closeoutChecksum, r.once.closeoutChecksum)
  }

  /** validate_failure_continuity */
  predicate FailureContinues(p: Record, r: Record) {
    if r.state in FAILURE && p.state !in FAILURE then p.failureClass == NoFailure
    else r.failureClass == p.failureClass && r.failureReason == p.failureReason
  }

  /** validate_trigger_transition */
  predicate TriggerContinues(p: Record, r: Record) {
    if p.state == PrestepAdmitted && r.state == TriggeredExactlyOnce then r.trigger == CONFIRMED
    else if p.state == PrestepAdmitted && r.state == InvalidPosttrigger then r.trigger == AMBIGUOUS
    else r.trigger == p.trigger
  }

  /** validate_adjudication_transition */
  predicate AdjudicationContinues(p: Record, r: Record) {
    r.state == ScientificallyAdjudicated ==>
      r.adjudication in {Valid, Invalid} && (p.state == InvalidPosttrigger ==> r.adjudication == Invalid)
  }

  /** The validator's verdict on a record and its predecessor. */
  predicate StepAccepted(p: Record, r: Record) {
    && SchemaAccepted(r) && SchemaAccepted(p) && RecordAccepted(p) && r.state != New
    && r.previousState == Some(p.state) && Legal(p.state, r.state) && r.decisionNs > p.decisionNs
    && IdentityContinues(p, r) && FailureContinues(p, r) && TriggerContinues(p, r)
    && RecordAccepted(r) && AdjudicationContinues(p, r)
  }

  // ---- chains ----

  /** A chain accepted record by record from NEW. */
  predicate Accepted(c: seq<Record>) {
    && c != [] && FirstAccepted(c[0])
    && forall i :: 0 < i < |c| ==> StepAccepted(c[i - 1], c[i])
  }

  /** What one accepted step says, the schema aside. */
  lemma StepOf(c: seq<Record>, i: nat)
    requires Accepted(c) && 0 < i < |c|
    ensures var p, r := c[i - 1], c[i];
      && Legal(p.state, r.state) && IdentityContinues(p, r) && FailureContinues(p, r) && TriggerContinues(p, r)
      && AdjudicationContinues(p, r) && RecordAccepted(p) && RecordAccepted(r)
  {
    hide SchemaAccepted;
    hide RecordAccepted;
    hide Legal;
    hide IdentityContinues;
    hide FailureContinues;
    hide TriggerContinues;
    hide AdjudicationContinues;
    assert StepAccepted(c[i - 1], c[i]);
  }

  lemma FirstOf(c: seq<Record>)
    requires Accepted(c)
    ensures c != [] && c[0].state == New && RecordAccepted(c[0])
  {
    hide SchemaAccepted;
    hide RecordAccepted;
    hide StepAccepted;
  }

  function Rank(s: State): nat {
    match s
    case New => 0
    case Deployed => 1
    case PlatformQualified => 2
    case InitialStateVerified => 3
    case ActuatorArmed => 4
    case WorkloadReady => 5
    case PrestepAdmitted => 6
    case TriggeredExactlyOnce => 7
    case AppliedVerified => 8
    case PoststepComplete => 9
    case InvalidPosttrigger => 10
    case AbortedPretrigger => 10
    case ScientificallyAdjudicated => 11
    case Closed => 12
    case Destroyed => 13
  }

  lemma RankRises(s: State, t: State)
    requires Legal(s, t)
    ensures Rank(s) < Rank(t)
  {
  }

  lemma {:induction false} RankBounds(c: seq<Record>, i: nat)
    requires Accepted(c) && i < |c|
    ensures Rank(c[i].state) >= i
  {
    hide Accepted;
    hide Legal;
    hide RecordAccepted;
    if i > 0 {
      RankBounds(c, i - 1);
      StepOf(c, i);
      RankRises(c[i - 1].state, c[i].state);
    }
  }

  /** No chain is longer than fourteen records, and no state occurs twice. */
  lemma ChainsAreShort(c: seq<Record>)
    requires Accepted(c)
    ensures |c| <= 14
  {
    hide Accepted;
    FirstOf(c);
    RankBounds(c, |c| - 1);
  }

  lemma {:induction false} StatesAdvance(c: seq<Record>, i: nat, j: nat)
    requires Accepted(c) && i < j < |c|
    ensures Rank(c[i].state) < Rank(c[j].state)
    decreases j
  {
    hide Accepted;
    hide Legal;
    hide RecordAccepted;
    StepOf(c, j);
    RankRises(c[j - 1].state, c[j].state);
    if i < j - 1 { StatesAdvance(c, i, j - 1); }
  }

  ghost predicate Visited(c: seq<Record>, s: State, i: nat)
    requires i < |c|
  {
    exists k :: 0 <= k <= i && c[k].state == s
  }

  /** A failure class other than NONE appears exactly when a failure state was visited. */
  lemma {:induction false} FailureClassMeansFailureState(c: seq<Record>, i: nat)
    requires Accepted(c) && i < |c|
    ensures c[i].failureClass != NoFailure <==> Visited(c, AbortedPretrigger, i) || Visited(c, InvalidPosttrigger, i)
    ensures c[i].failureClass != NoFailure ==> c[i].failureReason != None
  {
    hide Accepted;
    hide IdentityContinues;
    hide TriggerContinues;
    hide Visited;
    FirstOf(c);
    if i > 0 {
      FailureClassMeansFailureState(c, i - 1);
      StepOf(c, i);
      Revisit(c, AbortedPretrigger, i);
      Revisit(c, InvalidPosttrigger, i);
    } else {
      FirstVisits(c);
    }
  }

  /** The dispatch was ambiguous: the chain went from PRESTEP_ADMITTED straight to INVALID. */
  ghost predicate WentAmbiguous(c: seq<Record>, i: nat)
    requires i < |c|
  {
    exists k :: 0 < k <= i && c[k].state == InvalidPosttrigger && c[k - 1].state == PrestepAdmitted
  }

  /** The trigger fields take three values: confirmed exactly after TRIGGERED_EXACTLY_ONCE, the
      ambiguous value exactly after an ambiguous dispatch, untriggered otherwise. */
  lemma {:induction false} TriggerValues(c: seq<Record>, i: nat)
    requires Accepted(c) && i < |c|
    ensures c[i].trigger == CONFIRMED <==> Visited(c, TriggeredExactlyOnce, i)
    ensures c[i].trigger == AMBIGUOUS <==> WentAmbiguous(c, i)
    ensures c[i].trigger in {UNTRIGGERED, CONFIRMED, AMBIGUOUS}
  {
    hide Accepted;
    hide IdentityContinues;
    hide FailureContinues;
    hide Visited;
    FirstOf(c);
    if i > 0 {
      TriggerValues(c, i - 1);
      StepOf(c, i);
      Revisit(c, TriggeredExactlyOnce, i);
    } else {
      FirstVisits(c);
    }
  }

  /** They change at most once and never go back. */
  lemma {:induction false} TriggerChangesOnce(c: seq<Record>, i: nat, j: nat)
    requires Accepted(c) && i <= j < |c|
    ensures c[i].trigger == UNTRIGGERED || c[j].trigger == c[i].trigger
    decreases j
  {
    hide Accepted;
    hide IdentityContinues;
    hide FailureContinues;
    if i < j {
      TriggerChangesOnce(c, i, j - 1);
      StepOf(c, j);
    }
  }

  /** The identity never changes; a write-once field, once written, keeps its value. */
  lemma {:induction false} WriteOnceHolds(c: seq<Record>, i: nat, j: nat)
    requires Accepted(c) && i <= j < |c|
    ensures IdentityContinues(c[i], c[j])
    ensures c[i].identity == c[j].identity
    ensures var was, now := c[i].once, c[j].once;
      && (was.platformQualification.Some? ==> now.platformQualification == was.platformQualification)
      && (was.runtimeIncarnation.Some? ==> now.runtimeIncarnation == was.runtimeIncarnation)
      && (was.initialPrbObserved.Some? ==> now.initialPrbObserved == was.initialPrbObserved)
      && (was.receiverWorkload.Some? ==> now.receiverWorkload == was.receiverWorkload)
      && (was.actuator.Some? ==> now.actuator == was.actuator)
      && (was.appliedReadback.Some? ==> now.appliedReadback == was.appliedReadback)
      && (was.closeoutChecksum.Some? ==> now.closeoutChecksum == was.closeoutChecksum)
    decreases j
  {
    hide Accepted;
    hide RecordAccepted;
    if i < j {
      WriteOnceHolds(c, i, j - 1);
      StepOf(c, j);
    }
  }

  lemma StepInTime(c: seq<Record>, j: nat)
    requires Accepted(c) && 0 < j < |c|
    ensures c[j - 1].decisionNs < c[j].decisionNs && c[j].previousState == Some(c[j - 1].state)
  {
    hide SchemaAccepted;
    hide RecordAccepted;
    hide IdentityContinues;
    hide FailureContinues;
    hide TriggerContinues;
    assert StepAccepted(c[j - 1], c[j]);
  }

  /** Every decision is later than those before it, and each record names the state before it. */
  lemma {:induction false} DecisionsAdvance(c: seq<Record>, i: nat, j: nat)
    requires Accepted(c) && i < j < |c|
    ensures c[i].decisionNs < c[j].decisionNs && c[j].previousState == Some(c[j - 1].state)
    decreases j
  {
    hide Accepted;
    StepInTime(c, j);
    if i < j - 1 { DecisionsAdvance(c, i, j - 1); }
  }

  /** Once the initial PRB state has been verified the observed value stays the required one. */
  lemma PrbStaysVerified(c: seq<Record>, i: nat, j: nat)
    requires Accepted(c) && i <= j < |c| && c[i].state == InitialStateVerified
    ensures c[j].once.initialPrbObserved == Some(c[j].identity.initialPrbRequired)
  {
    hide Accepted;
    hide IdentityContinues;
    if i > 0 { StepOf(c, i); } else { FirstOf(c); }
    PrbKept(c, i, j);
  }

  lemma PrbKept(c: seq<Record>, i: nat, j: nat)
    requires Accepted(c) && i <= j < |c| && c[i].once.initialPrbObserved == Some(c[i].identity.initialPrbRequired)
    ensures c[j].once.initialPrbObserved == Some(c[j].identity.initialPrbRequired)
  {
    hide Accepted;
    WriteOnceHolds(c, i, j);
  }

  lemma Predecessor(c: seq<Record>, i: nat, s: State, p: State)
    requires Accepted(c) && i < |c| && c[i].state == s && s != New
    requires forall q :: Legal(q, s) ==> q == p
    ensures i > 0 && c[i - 1].state == p
  {
    hide Accepted;
    hide Legal;
    hide RecordAccepted;
    FirstOf(c);
    if i > 0 { StepOf(c, i); }
  }

  lemma ValidPath(c: seq<Record>, i: nat)
    requires Accepted(c) && i < |c|
    requires c[i].state == ScientificallyAdjudicated && c[i].adjudication == Valid
    ensures i >= 3 && c[i - 1].state == PoststepComplete && c[i - 2].state == AppliedVerified
    ensures c[i - 3].state == TriggeredExactlyOnce
  {
    hide Accepted;
    hide IdentityContinues;
    hide RecordAccepted;
    hide FailureContinues;
    hide TriggerContinues;
    FirstOf(c);
    assert i > 0;
    StepOf(c, i);
    assert c[i - 1].state == PoststepComplete;
    Predecessor(c, i - 1, PoststepComplete, AppliedVerified);
    Predecessor(c, i - 2, AppliedVerified, TriggeredExactlyOnce);
  }

  /** A chain adjudicated VALID went through TRIGGERED_EXACTLY_ONCE, APPLIED_VERIFIED and
      POSTSTEP_COMPLETE in its last three steps, with one confirmed trigger, no failure, and every
      piece of evidence on record. */
  lemma ValidMeansConfirmed(c: seq<Record>, i: nat)
    requires Accepted(c) && i < |c|
    requires c[i].state == ScientificallyAdjudicated && c[i].adjudication == Valid
    ensures i >= 3 && c[i - 1].state == PoststepComplete && c[i - 2].state == AppliedVerified
    ensures c[i - 3].state == TriggeredExactlyOnce
    ensures c[i].trigger == CONFIRMED && c[i].failureClass == NoFailure
    ensures c[i - 1].poststepPass && c[i - 1].precontrolPass
    ensures var once := c[i].once;
      && Nonempty(once.platformQualification) && Nonempty(once.runtimeIncarnation) && Nonempty(once.actuator)
      && Nonempty(once.receiverWorkload) && Nonempty(once.appliedReadback)
      && once.initialPrbObserved == Some(c[i].identity.initialPrbRequired)
  {
    hide Accepted;
    hide IdentityContinues;
    hide Legal;
    hide Nonempty;
    hide Visited;
    hide WentAmbiguous;
    ValidPath(c, i);
    TriggeredIsKept(c, i);
    StepOf(c, i);
    FailureContinuesNone(c[i - 1], c[i]);
    EvidenceKept(c[i - 1], c[i]);
  }

  lemma TriggeredIsKept(c: seq<Record>, i: nat)
    requires Accepted(c) && 3 <= i < |c| && c[i - 3].state == TriggeredExactlyOnce
    ensures c[i].trigger == CONFIRMED
  {
    hide Accepted;
    hide WentAmbiguous;
    TriggerValues(c, i);
    assert Visited(c, TriggeredExactlyOnce, i);
  }

  lemma FailureContinuesNone(p: Record, r: Record)
    requires RecordAccepted(p) && p.state == PoststepComplete && FailureContinues(p, r)
    requires r.state == ScientificallyAdjudicated
    ensures r.failureClass == NoFailure
  {
  }

  lemma EvidenceKept(p: Record, r: Record)
    requires IdentityContinues(p, r) && RecordAccepted(p) && p.state == PoststepComplete
    ensures Nonempty(r.once.platformQualification) && Nonempty(r.once.runtimeIncarnation) && Nonempty(r.once.actuator)
    ensures Nonempty(r.once.receiverWorkload) && Nonempty(r.once.appliedReadback)
    ensures r.once.initialPrbObserved == Some(r.identity.initialPrbRequired)
  {
  }

  // ---- what a record shows of its past ----

  /** The chain went through trigger, readback and post-step, and never through a failure. */
  ghost predicate TookCleanPath(c: seq<Record>, i: nat)
    requires i < |c|
  {
    && Visited(c, TriggeredExactlyOnce, i) && Visited(c, AppliedVerified, i) && Visited(c, PoststepComplete, i)
    && !Visited(c, AbortedPretrigger, i) && !Visited(c, InvalidPosttrigger, i)
  }

  /** What the record itself shows. */
  predicate ShowsCleanPath(r: Record) {
    && r.state in {PoststepComplete, ScientificallyAdjudicated, Closed, Destroyed}
    && r.trigger == CONFIRMED && r.failureClass == NoFailure
  }

  ghost predicate NoFailureVisited(c: seq<Record>, i: nat)
    requires i < |c|
  {
    forall k :: 0 <= k <= i ==> c[k].state !in FAILURE
  }

  lemma Revisit(c: seq<Record>, s: State, i: nat)
    requires 0 < i < |c|
    ensures Visited(c, s, i) <==> Visited(c, s, i - 1) || c[i].state == s
  {
  }

  /** Without a failure the only way to POSTSTEP_COMPLETE and beyond is the whole path. */
  lemma {:induction false} CleanPathIsForced(c: seq<Record>, i: nat)
    requires Accepted(c) && i < |c| && NoFailureVisited(c, i)
    ensures Visited(c, TriggeredExactlyOnce, i) <==>
      c[i].state == TriggeredExactlyOnce || Visited(c, AppliedVerified, i)
    ensures Visited(c, AppliedVerified, i) <==>
      c[i].state in {AppliedVerified, PoststepComplete, ScientificallyAdjudicated, Closed, Destroyed}
    ensures Visited(c, PoststepComplete, i) <==>
      c[i].state in {PoststepComplete, ScientificallyAdjudicated, Closed, Destroyed}
  {
    hide Visited;
    hide Accepted;
    if i > 0 {
      CleanPathIsForced(c, i - 1);
      StepIsLegal(c, i);
      Revisit(c, TriggeredExactlyOnce, i);
      Revisit(c, AppliedVerified, i);
      Revisit(c, PoststepComplete, i);
      assert c[i].state !in FAILURE && c[i - 1].state !in FAILURE;
    } else {
      FirstVisits(c);
    }
  }

  lemma StepIsLegal(c: seq<Record>, i: nat)
    requires Accepted(c) && 0 < i < |c|
    ensures Legal(c[i - 1].state, c[i].state)
  {
    hide Accepted;
    hide RecordAccepted;
    StepOf(c, i);
  }

  lemma FirstVisits(c: seq<Record>)
    requires Accepted(c)
    ensures c[0].state == New
    ensures forall s :: Visited(c, s, 0) <==> s == New
  {
    hide Accepted;
    FirstOf(c);
  }

  /** A chain took the clean path exactly when its record shows it: four states, the confirmed
      trigger and no failure class. */
  lemma RecordShowsItsPath(c: seq<Record>, i: nat)
    requires Accepted(c) && i < |c|
    ensures TookCleanPath(c, i) <==> ShowsCleanPath(c[i])
  {
    hide Accepted;
    FailureClassMeansFailureState(c, i);
    TriggerValues(c, i);
    if NoFailureVisited(c, i) {
      CleanPathIsForced(c, i);
    }
  }

  /** The path behind a record that says VALID. For a SCIENTIFICALLY_ADJUDICATED record it is always
      the clean one; for a CLOSED or DESTROYED record exactly when the trigger is confirmed and the
      failure class is NONE. Whether the chain was adjudicated VALID is another question, answered
      below. */
  lemma PathBehindAValid(c: seq<Record>, i: nat)
    requires Accepted(c) && i < |c| && c[i].adjudication == Valid
    ensures c[i].state == ScientificallyAdjudicated ==> TookCleanPath(c, i)
    ensures c[i].state in {Closed, Destroyed} ==>
      (TookCleanPath(c, i) <==> c[i].trigger == CONFIRMED && c[i].failureClass == NoFailure)
  {
    hide Accepted;
    hide TookCleanPath;
    RecordShowsItsPath(c, i);
    if c[i].state == ScientificallyAdjudicated { ValidMeansConfirmed(c, i); }
  }

  // ---- the adjudication result is only checked at one state ----

  /** In any accepted chain the adjudication result of a record in any other state can be replaced
      by anything: the chain is accepted just the same. */
  lemma AdjudicationUncheckedElsewhere(c: seq<Record>, i: nat, result: Adjudication)
    requires Accepted(c) && i < |c| && c[i].state != ScientificallyAdjudicated
    ensures Accepted(c[i := c[i].(adjudication := result)])
  {
    hide IdentityContinues;
    hide Legal;
    hide RecordAccepted;
    hide SchemaAccepted;
    var r := c[i].(adjudication := result);
    var d := c[i := r];
    Blind(c[i], r);
    forall k | 0 < k < |d| ensures StepAccepted(d[k - 1], d[k]) {
      assert StepAccepted(c[k - 1], c[k]);
      if k == i { BlindStep(c[k - 1], c[k], c[k - 1], r); }
      if k - 1 == i { BlindStep(c[k - 1], c[k], r, c[k]); }
    }
  }

  lemma Blind(a: Record, b: Record)
    requires b == a.(adjudication := b.adjudication) && a.state != ScientificallyAdjudicated
    ensures RecordAccepted(a) <==> RecordAccepted(b)
    ensures SchemaAccepted(a) <==> SchemaAccepted(b)
    ensures FirstAccepted(a) <==> FirstAccepted(b)
  {
    hide IdentityConforms;
    hide WriteOnceConforms;
  }

  lemma BlindStep(p: Record, r: Record, p': Record, r': Record)
    requires StepAccepted(p, r)
    requires p' == p.(adjudication := p'.adjudication) && r' == r.(adjudication := r'.adjudication)
    requires (p' != p ==> p.state != ScientificallyAdjudicated) && (r' != r ==> r.state != ScientificallyAdjudicated)
    ensures StepAccepted(p', r')
  {
    hide RecordAccepted;
    hide SchemaAccepted;
    hide Legal;
    if p.state != ScientificallyAdjudicated { Blind(p, p'); }
    if r.state != ScientificallyAdjudicated { Blind(r, r'); }
  }

  // ---- what a closing record says of the adjudication ----

  /** The chain was adjudicated so before, or at, record j. */
  ghost predicate AdjudicatedAs(c: seq<Record>, j: nat, result: Adjudication)
    requires j < |c|
  {
    exists i :: 0 <= i <= j && c[i].state == ScientificallyAdjudicated && c[i].adjudication == result
  }

  /** A closing record may say anything: the chain is accepted, and adjudicated, just the same. */
  lemma ClosingSaysAnything(c: seq<Record>, j: nat, result: Adjudication)
    requires Accepted(c) && j < |c| && c[j].state in {Closed, Destroyed}
    ensures var d := c[j := c[j].(adjudication := result)];
      && Accepted(d) && d[j].adjudication == result
      && forall x :: AdjudicatedAs(d, j, x) <==> AdjudicatedAs(c, j, x)
  {
    hide Accepted;
    AdjudicationUncheckedElsewhere(c, j, result);
    var d := c[j := c[j].(adjudication := result)];
    forall x ensures AdjudicatedAs(d, j, x) <==> AdjudicatedAs(c, j, x) {
      assert forall i :: 0 <= i < j ==> d[i] == c[i];
    }
  }

  /** The adjudication itself can be replaced exactly by a result its predecessor allows. */
  lemma Readjudicated(c: seq<Record>, i: nat, result: Adjudication)
    requires Accepted(c) && i < |c| && c[i].state == ScientificallyAdjudicated
    ensures i > 0
    ensures Accepted(c[i := c[i].(adjudication := result)]) <==>
      result in {Valid, Invalid} && (c[i - 1].state == InvalidPosttrigger ==> result == Invalid)
  {
    hide IdentityContinues;
    hide Legal;
    hide RecordAccepted;
    hide SchemaAccepted;
    FirstOf(c);
    var r := c[i].(adjudication := result);
    var d := c[i := r];
    StepOf(c, i);
    ResultDecides(c[i], r);
    assert StepAccepted(c[i - 1], c[i]);
    assert Accepted(d) ==> StepAccepted(d[i - 1], d[i]);
    if RecordAccepted(r) && AdjudicationContinues(c[i - 1], r) {
      forall k | 0 < k < |d| ensures StepAccepted(d[k - 1], d[k]) {
        assert StepAccepted(c[k - 1], c[k]);
        if k == i { ContinuesBlindly(c[k - 1], c[k], c[k - 1], r); }
        if k - 1 == i { ContinuesBlindly(c[k - 1], c[k], r, c[k]); }
      }
    }
  }

  lemma ResultDecides(a: Record, b: Record)
    requires RecordAccepted(a) && a.state == ScientificallyAdjudicated && b == a.(adjudication := b.adjudication)
    ensures RecordAccepted(b) <==> b.adjudication in {Valid, Invalid}
    ensures SchemaAccepted(a) <==> SchemaAccepted(b)
  {
    hide IdentityConforms;
    hide WriteOnceConforms;
  }

  /** The checks on two records do not read the result, but for the last one. */
  lemma ContinuesBlindly(p: Record, r: Record, p': Record, r': Record)
    requires p' == p.(adjudication := p'.adjudication) && r' == r.(adjudication := r'.adjudication)
    ensures IdentityContinues(p, r) <==> IdentityContinues(p', r')
    ensures FailureContinues(p, r) <==> FailureContinues(p', r')
    ensures TriggerContinues(p, r) <==> TriggerContinues(p', r')
    ensures r' == r ==> (AdjudicationContinues(p, r) <==> AdjudicationContinues(p', r'))
  {
  }

  /** Behind a closing record that shows the clean path lies an adjudication after a completed
      post-step. */
  lemma CleanWasAdjudicated(c: seq<Record>, j: nat) returns (i: nat)
    requires Accepted(c) && j < |c| && c[j].state in {Closed, Destroyed} && ShowsCleanPath(c[j])
    ensures 0 < i < j && c[i].state == ScientificallyAdjudicated && c[i - 1].state == PoststepComplete
  {
    hide Accepted;
    RecordShowsItsPath(c, j);
    var k := j;
    if c[j].state == Destroyed {
      Predecessor(c, j, Destroyed, Closed);
      k := j - 1;
    }
    FirstOf(c);
    StepIsLegal(c, k);
    i := k - 1;
    assert c[i].state == ScientificallyAdjudicated;
    StepIsLegal(c, i);
  }

  /** An adjudication is only followed by closing records, so their path is its path. */
  lemma {:induction false} AdjudicatedPath(c: seq<Record>, i: nat, j: nat)
    requires Accepted(c) && i <= j < |c| && c[i].state == ScientificallyAdjudicated && TookCleanPath(c, i)
    ensures TookCleanPath(c, j)
    decreases j
  {
    hide Accepted;
    if i < j {
      AdjudicatedPath(c, i, j - 1);
      StatesAdvance(c, i, j);
      forall s ensures Visited(c, s, j) <==> Visited(c, s, j - 1) || c[j].state == s { Revisit(c, s, j); }
      hide Visited;
    }
  }

  /** What a CLOSED or DESTROYED record tells of the adjudicated result. That it was VALID is possible
      exactly when the record shows the clean path, and then INVALID is possible as well, with the
      very same record: so no field of it decides. Only the SCIENTIFICALLY_ADJUDICATED record does. */
  lemma ClosingRecordDecidesNothing(c: seq<Record>, j: nat)
    requires Accepted(c) && j < |c| && c[j].state in {Closed, Destroyed}
    ensures ShowsCleanPath(c[j]) <==>
      exists d: seq<Record> :: Accepted(d) && j < |d| && d[j] == c[j] && AdjudicatedAs(d, j, Valid)
    ensures ShowsCleanPath(c[j]) ==>
      exists d: seq<Record> :: Accepted(d) && j < |d| && d[j] == c[j] && AdjudicatedAs(d, j, Invalid)
  {
    hide Accepted;
    hide ShowsCleanPath;
    if ShowsCleanPath(c[j]) {
      var i := CleanWasAdjudicated(c, j);
      Readjudicated(c, i, Valid);
      Readjudicated(c, i, Invalid);
      var valid := c[i := c[i].(adjudication := Valid)];
      var invalid := c[i := c[i].(adjudication := Invalid)];
      assert valid[i].state == ScientificallyAdjudicated && invalid[i].state == ScientificallyAdjudicated;
      assert Accepted(valid) && j < |valid| && valid[j] == c[j] && AdjudicatedAs(valid, j, Valid);
      assert Accepted(invalid) && j < |invalid| && invalid[j] == c[j] && AdjudicatedAs(invalid, j, Invalid);
    }
    forall d: seq<Record> | Accepted(d) && j < |d| && d[j] == c[j] && AdjudicatedAs(d, j, Valid)
      ensures ShowsCleanPath(c[j]) {
      var i :| 0 <= i <= j && d[i].state == ScientificallyAdjudicated && d[i].adjudication == Valid;
      PathBehindAValid(d, i);
      AdjudicatedPath(d, i, j);
      RecordShowsItsPath(d, j);
    }
  }

  const SAMPLE_STAMP := "20260101T000000Z-001"
  const SAMPLE_EXPERIMENT := "EXP-" + ("20260101" + ("-" + ("DL-18000K" + "-R01")))

  function SampleIdentity(): Identity {
    Identity("TXN-" + SAMPLE_STAMP, SAMPLE_EXPERIMENT, "RUN-" + SAMPLE_STAMP, "T1", seq(40, _ => '0'), "protocol", 26)
  }

  /** An aborted chain, never triggered, whose closing record says VALID. */
  function AbortedChain(): seq<Record> {
    var none := WriteOnce(None, None, None, None, None, None, None);
    var closed := none.(closeoutChecksum := Some(seq(64, _ => '0')));
    [Record(New, None, 1, SampleIdentity(), none, UNTRIGGERED, NoFailure, None, false, false, NotAdjudicated),
     Record(AbortedPretrigger, Some(New), 2, SampleIdentity(), none, UNTRIGGERED, PlatformFailure, Some("x"),
            false, false, NotAdjudicated),
     Record(Closed, Some(AbortedPretrigger), 3, SampleIdentity(), closed, UNTRIGGERED, PlatformFailure, Some("x"),
            false, false, Valid)]
  }

  lemma SampleStamp(prefix: string)
    requires |prefix| == 4
    ensures Stamped(prefix, Trimmed(prefix + SAMPLE_STAMP))
  {
    var t := SAMPLE_STAMP;
    assert (prefix + t)[4..] == t;
    assert t[..8] == "20260101" && t[9..15] == "000000" && t[17..] == "001";
  }

  lemma ExperimentParts(date: string, middle: string, tail: string, k: nat)
    requires Digits(date, 8) && |tail| == 4 && tail[..2] == "-R" && Digits(tail[2..], 2)
    requires 0 < k < |middle| - 1 && middle[k] == '-'
    requires (forall i :: 0 <= i < k ==> UpperOrDigit(middle[i]))
             && (forall i :: k < i < |middle| ==> UpperOrDigit(middle[i]) || middle[i] == '-')
    ensures ExperimentShape("EXP-" + (date + ("-" + (middle + tail))))
  {
    var s := "EXP-" + (date + ("-" + (middle + tail)));
    var n := |s|;
    assert s[..4] == "EXP-" && s[4..12] == date && s[12] == '-';
    assert s[13..n - 4] == middle;
    assert s[n - 4..n - 2] == tail[..2] && s[n - 2..] == tail[2..];
  }

  lemma SampleExperiment()
    ensures ExperimentShape(Trimmed(SAMPLE_EXPERIMENT))
  {
    hide ExperimentShape;
    assert "-R01"[..2] == "-R" && "-R01"[2..] == "01";
    ExperimentParts("20260101", "DL-18000K", "-R01", 2);
  }

  lemma SampleConforms()
    ensures IdentityConforms(SampleIdentity())
  {
    hide Stamped;
    hide ExperimentShape;
    SampleStamp("TXN-");
    SampleStamp("RUN-");
    SampleExperiment();
    SampleHead();
  }

  lemma SampleHead()
    ensures Hex(Trimmed(seq(40, _ => '0')), 40)
  {
  }

  /** The validator, its schema included, accepts it; the record shows no clean path. */
  lemma AbortedChainIsAccepted()
    ensures Accepted(AbortedChain()) && AbortedChain()[2].adjudication == Valid
    ensures AbortedChain()[2].trigger == UNTRIGGERED && !ShowsCleanPath(AbortedChain()[2])
  {
    hide IdentityConforms;
    SampleConforms();
    hide SampleIdentity;
    var c := AbortedChain();
    assert StepAccepted(c[0], c[1]);
    assert StepAccepted(c[1], c[2]);
  }

  // ---- a closing record that contradicts the adjudication ----

  const PATH: seq<State> :=
    [New, Deployed, PlatformQualified, InitialStateVerified, ActuatorArmed, WorkloadReady, PrestepAdmitted,
     TriggeredExactlyOnce, AppliedVerified, PoststepComplete, ScientificallyAdjudicated, Closed]

  function SampleEvidence(k: nat): WriteOnce {
    var none := WriteOnce(None, None, None, None, None, None, None);
    if k == 0 then none
    else
      WriteOnce(Some("platform"), Some("runtime"), Some(26), Some("receiver"), Some("actuator"), Some("readback"),
                if k == 11 then Some(seq(64, _ => '0')) else None)
  }

  /** The record at each state of the clean path; adjudicated INVALID, and closed with VALID. */
  function SampleRecord(k: nat): Record
    requires k < 12
  {
    Record(PATH[k], if k == 0 then None else Some(PATH[k - 1]), k + 1, SampleIdentity(), SampleEvidence(k),
           if k < 7 then UNTRIGGERED else CONFIRMED, NoFailure, None, true, true,
           if k == 10 then Invalid else if k == 11 then Valid else NotAdjudicated)
  }

  function ContradictedChain(): seq<Record> { seq(12, k requires 0 <= k < 12 => SampleRecord(k)) }

  lemma SampleRecordAccepted(k: nat)
    requires k < 12
    ensures SchemaAccepted(SampleRecord(k)) && RecordAccepted(SampleRecord(k))
  {
    hide IdentityConforms;
    SampleConforms();
    hide SampleIdentity;
    SampleEvidenceConforms(k);
    hide WriteOnceConforms;
  }

  lemma SampleEvidenceConforms(k: nat)
    ensures WriteOnceConforms(SampleEvidence(k))
  {
  }

  /** The validator accepts a chain whose adjudication says INVALID and whose closing record, with the
      confirmed trigger and no failure class, says VALID. */
  lemma ContradictedChainIsAccepted()
    ensures var c := ContradictedChain();
      && Accepted(c) && c[10].state == ScientificallyAdjudicated && c[10].adjudication == Invalid
      && c[11].state == Closed && c[11].adjudication == Valid && ShowsCleanPath(c[11])
  {
    hide SchemaAccepted;
    hide RecordAccepted;
    hide SampleIdentity;
    var c := ContradictedChain();
    SampleRecordAccepted(0);
    forall k | 0 < k < 12 ensures StepAccepted(c[k - 1], c[k]) {
      SampleRecordAccepted(k - 1);
      SampleRecordAccepted(k);
    }
  }
}
