/** The one-shot trigger on shared files: any number of legacy and post-validation processes, on
    any runs and operation ids, interleaved between any two file operations and crashing anywhere. */
module OneShotRuns {
  import opened Bytes

  type Pid = nat
  /** Run directories lie in the directories of experiments, and these in a root that also holds the
      claims. */
  type Root = nat
  datatype RunId = RunId(root: Root, number: nat)
  type OperationId = nat

  /** The files the two entry points share, and those each of them writes on its own. */
  datatype Name =
    | Intent(run: RunId)
    | LegacyOutcome(run: RunId)
    | ExecutorReport(run: RunId)
    | PostvalOutcome(run: RunId)
    | PostvalExecutor(run: RunId)
    | Claim(root: Root, op: OperationId)

  datatype Kind = Legacy | Postval

  datatype Pc =
    | Checking(k: nat)      // names looked up so far
    | IntentDue | IntentCreated
    | ClaimDue | ClaimCreated
    | Preparing             // legacy: stationarity and ratio children; postval: waiting for the sample
    | DispatchDue           // legacy: about to start the executor; postval: about to open the FIFO
    | AwaitingChild         // legacy only
    | WriteDue              // postval only: the FIFO is open
    | CloseDue              // postval only
    | OutcomeDue
    | Stopped               // returned, raised or crashed

  /** dispatched and attempted are history: whether it dispatched a trigger, and whether it or
      its executor called write on the FIFO. */
  datatype Process = Process(kind: Kind, run: RunId, op: OperationId, pc: Pc, dispatched: bool, attempted: bool)

  /** The executor a legacy process starts. It outlives its parent's crash. */
  datatype ChildPc = Validating | ChildOpenDue | ChildWriteDue | ChildReportDue | ChildStopped

  /** One call of os.write on the actuator FIFO. */
  datatype Attempt = Attempt(writer: Pid, run: RunId, op: OperationId)

  /** creators says who created a file; dispatches and attempts are history. */
  datatype State = State(
    creators: map<Name, Pid>,
    processes: map<Pid, Process>,
    children: map<Pid, ChildPc>,
    dispatches: seq<Pid>,
    attempts: seq<Attempt>)

  /** The names a process looks for before it does anything, in order. */
  function Guarded(kind: Kind, run: RunId): (names: seq<Name>)
    ensures Intent(run) in names
  {
    match kind
    case Legacy => [Intent(run), LegacyOutcome(run), ExecutorReport(run)]
    case Postval =>
      [Intent(run), LegacyOutcome(run), ExecutorReport(run), PostvalOutcome(run), PostvalExecutor(run)]
  }

  datatype Action =
    | Start(p: Pid, kind: Kind, run: RunId, op: OperationId)
    | Check(p: Pid)
    | CreateIntent(p: Pid)
    | WriteIntent(p: Pid)
    | CreateClaim(p: Pid)
    | WriteClaim(p: Pid)
    | Prepare(p: Pid)
    | Dispatch(p: Pid)
    | Write(p: Pid)
    | Close(p: Pid)
    | ChildReturns(p: Pid)
    | CreateOutcome(p: Pid)
    | Raise(p: Pid)
    | Crash(p: Pid)
    | ChildStep(p: Pid)
    | ChildFails(p: Pid)
    | ChildCrash(p: Pid)

  predicate ChildAt(s: State, p: Pid, pc: ChildPc) { p in s.children && s.children[p] == pc }

  predicate At(s: State, p: Pid, pc: Pc) { p in s.processes && s.processes[p].pc == pc }

  /** What the environment may do next; every failure is possible wherever the code can fail. */
  predicate Enabled(s: State, a: Action) {
    match a
    case Start(p, _, _, _) => p !in s.processes
    case Check(p) => p in s.processes && s.processes[p].pc.Checking?
    case CreateIntent(p) => At(s, p, IntentDue)
    case WriteIntent(p) => At(s, p, IntentCreated)
    case CreateClaim(p) => At(s, p, ClaimDue)
    case WriteClaim(p) => At(s, p, ClaimCreated)
    case Prepare(p) => At(s, p, Preparing)
    case Dispatch(p) => At(s, p, DispatchDue)
    case Write(p) => At(s, p, WriteDue)
    case Close(p) => At(s, p, CloseDue)
    case ChildReturns(p) => At(s, p, AwaitingChild)
    case CreateOutcome(p) => At(s, p, OutcomeDue)
    case Raise(p) => p in s.processes && s.processes[p].pc != Stopped
    case Crash(p) => p in s.processes
    case ChildStep(p) => p in s.children && p in s.processes && s.children[p] != ChildStopped
    case ChildFails(p) => p in s.children && s.children[p] in {Validating, ChildOpenDue}
    case ChildCrash(p) => p in s.children
  }

  function Goto(s: State, p: Pid, pc: Pc): State
    requires p in s.processes
  {
    s.(processes := s.processes[p := s.processes[p].(pc := pc)])
  }

  /** An exclusive create: it succeeds exactly when the name is free. */
  function Create(s: State, p: Pid, name: Name, next: Pc): State
    requires p in s.processes
  {
    if name in s.creators then Goto(s, p, Stopped)
    else Goto(s.(creators := s.creators[name := p]), p, next)
  }

  /** Where an exception leads: the outcome file is written once the claims are made. */
  function AfterRaise(pc: Pc): Pc {
    match pc
    case Preparing => OutcomeDue
    case DispatchDue => OutcomeDue
    case AwaitingChild => OutcomeDue
    case WriteDue => CloseDue
    case CloseDue => OutcomeDue
    case _ => Stopped
  }

  function OutcomeName(q: Process): Name {
    if q.kind == Legacy then LegacyOutcome(q.run) else PostvalOutcome(q.run)
  }

  function ClaimName(q: Process): Name { Claim(q.run.root, q.op) }

  function AttemptOf(s: State, p: Pid): Attempt
    requires p in s.processes
  {
    Attempt(p, s.processes[p].run, s.processes[p].op)
  }

  function Attempted(s: State, p: Pid): State
    requires p in s.processes
  {
    s.(processes := s.processes[p := s.processes[p].(attempted := true)], attempts := s.attempts + [AttemptOf(s, p)])
  }

  predicate IsChildAction(a: Action) { a.ChildStep? || a.ChildFails? || a.ChildCrash? }

  /** The executor's steps. */
  function ApplyChild(s: State, a: Action): State
    requires Enabled(s, a) && IsChildAction(a)
  {
    match a
    case ChildStep(p) =>
      (match s.children[p]
       case Validating => s.(children := s.children[p := ChildOpenDue])
       case ChildOpenDue => s.(children := s.children[p := ChildWriteDue])
       case ChildWriteDue =>
         Attempted(s, p).(children := s.children[p := ChildReportDue])
       case _ =>
         var name := ExecutorReport(s.processes[p].run);
         s.(children := s.children[p := ChildStopped],
            creators := if name in s.creators then s.creators else s.creators[name := p]))
    case ChildFails(p) => s.(children := s.children[p := ChildReportDue])
    case ChildCrash(p) => s.(children := s.children[p := ChildStopped])
  }

  /** A process's own steps. */
  function ApplyProcess(s: State, a: Action): State
    requires Enabled(s, a) && !IsChildAction(a)
  {
    match a
    case Start(p, kind, run, op) =>
      s.(processes := s.processes[p := Process(kind, run, op, Checking(0), false, false)])
    case Check(p) =>
      var q := s.processes[p];
      var names := Guarded(q.kind, q.run);
      if q.pc.k >= |names| then Goto(s, p, IntentDue)
      else if names[q.pc.k] in s.creators then Goto(s, p, Stopped)
      else Goto(s, p, Checking(q.pc.k + 1))
    case CreateIntent(p) => Create(s, p, Intent(s.processes[p].run), IntentCreated)
    case WriteIntent(p) => Goto(s, p, ClaimDue)
    case CreateClaim(p) => Create(s, p, ClaimName(s.processes[p]), ClaimCreated)
    case WriteClaim(p) => Goto(s, p, Preparing)
    case Prepare(p) => Goto(s, p, DispatchDue)
    case Dispatch(p) =>
      var q := s.processes[p].(dispatched := true);
      if q.kind == Legacy then
        s.(processes := s.processes[p := q.(pc := AwaitingChild)], dispatches := s.dispatches + [p],
           children := s.children[p := Validating])
      else s.(processes := s.processes[p := q.(pc := WriteDue)], dispatches := s.dispatches + [p])
    case Write(p) => Goto(Attempted(s, p), p, CloseDue)
    case Close(p) => Goto(s, p, OutcomeDue)
    case ChildReturns(p) => Goto(s, p, OutcomeDue)
    case CreateOutcome(p) => Create(s, p, OutcomeName(s.processes[p]), Stopped)
    case Raise(p) => Goto(s, p, AfterRaise(s.processes[p].pc))
    case Crash(p) => Goto(s, p, Stopped)
  }

  function Apply(s: State, a: Action): State
    requires Enabled(s, a)
  {
    if IsChildAction(a) then ApplyChild(s, a) else ApplyProcess(s, a)
  }

  ghost predicate Legal(s: State, actions: seq<Action>)
    decreases |actions|
  {
    actions == [] ||
    (Enabled(s, actions[0]) && Legal(Apply(s, actions[0]), actions[1..]))
  }

  ghost function After(s: State, actions: seq<Action>): State
    requires Legal(s, actions)
    decreases |actions|
  {
    if actions == [] then s else After(Apply(s, actions[0]), actions[1..])
  }

  const EMPTY := State(map[], map[], map[], [], [])

  // ---- who may be where ----

  /** Past the creation of the intent, or of the claim. */
  predicate HasIntent(pc: Pc) { !pc.Checking? && pc != IntentDue && pc != Stopped }

  predicate HasClaim(pc: Pc) { HasIntent(pc) && pc != IntentCreated && pc != ClaimDue }

  /** Past the dispatch. */
  predicate HasDispatched(pc: Pc) { pc == AwaitingChild || pc == WriteDue || pc == CloseDue }

  predicate Creator(s: State, name: Name, p: Pid) { name in s.creators && s.creators[name] == p }

  /** Before the dispatch. */
  predicate Undispatched(pc: Pc) { !HasDispatched(pc) && pc != OutcomeDue && pc != Stopped }

  predicate Dispatcher(s: State, p: Pid) {
    && p in s.processes && s.processes[p].dispatched
    && Creator(s, Intent(s.processes[p].run), p) && Creator(s, ClaimName(s.processes[p]), p)
  }

  /** A process that got past a claim made it; whoever dispatched made both claims; whoever wrote
      had dispatched, and nobody does either twice. */
  predicate ProcessInv(s: State, p: Pid)
    requires p in s.processes
  {
    var q := s.processes[p];
    && (HasIntent(q.pc) ==> Creator(s, Intent(q.run), p))
    && (HasClaim(q.pc) ==> Creator(s, ClaimName(q), p))
    && (q.dispatched ==> Dispatcher(s, p))
    && (Undispatched(q.pc) ==> !q.dispatched)
    && (q.attempted ==> q.dispatched)
    && (q.pc == WriteDue ==> q.dispatched && !q.attempted && q.kind == Postval)
    && (q.pc == AwaitingChild ==> q.kind == Legacy)
    && (p in s.children ==> q.dispatched && q.kind == Legacy)
    && (p in s.children && s.children[p] in {Validating, ChildOpenDue, ChildWriteDue} ==> !q.attempted)
  }

  /** The two histories list each dispatcher, and each writer, once. */
  predicate HistoryInv(s: State) {
    && (forall p :: p in s.children ==> p in s.processes)
    && (forall p :: p in s.dispatches ==> p in s.processes && s.processes[p].dispatched)
    && (forall i, j :: 0 <= i < j < |s.dispatches| ==> s.dispatches[i] != s.dispatches[j])
    && (forall a :: a in s.attempts ==>
          a.writer in s.processes && s.processes[a.writer].attempted && a == AttemptOf(s, a.writer))
    && (forall i, j :: 0 <= i < j < |s.attempts| ==> s.attempts[i].writer != s.attempts[j].writer)
  }

  predicate Inv(s: State) {
    && HistoryInv(s)
    && forall p :: p in s.processes ==> ProcessInv(s, p)
  }

  function Actor(a: Action): Pid { a.p }

  lemma CreatorsStay(s: State, a: Action)
    requires Enabled(s, a)
    ensures forall name, q :: Creator(s, name, q) ==> Creator(Apply(s, a), name, q)
  {
    hide Guarded;
  }

  /** Files are never removed, and a step leaves every other process alone. */
  lemma OthersUntouched(s: State, a: Action, p: Pid)
    requires Enabled(s, a) && p != Actor(a)
    ensures p in Apply(s, a).processes <==> p in s.processes
    ensures p in s.processes ==> Apply(s, a).processes[p] == s.processes[p]
    ensures p in Apply(s, a).children <==> p in s.children
    ensures p in s.children ==> Apply(s, a).children[p] == s.children[p]
    ensures forall name, q :: Creator(s, name, q) ==> Creator(Apply(s, a), name, q)
  {
    hide Creator;
    hide Guarded;
    CreatorsStay(s, a);
  }

  lemma OtherStep(s: State, a: Action, p: Pid)
    requires Enabled(s, a) && p != Actor(a) && p in s.processes && ProcessInv(s, p)
    ensures p in Apply(s, a).processes && ProcessInv(Apply(s, a), p)
  {
    hide Apply;
    hide Enabled;
    hide Creator;
    OthersUntouched(s, a, p);
  }

  lemma OwnProcessStep(s: State, a: Action)
    requires Inv(s) && Enabled(s, a) && !IsChildAction(a) && !a.Dispatch? && !a.Write?
    ensures Actor(a) in Apply(s, a).processes ==> ProcessInv(Apply(s, a), Actor(a))
  {
    hide HistoryInv;
    hide Guarded;
    var p := Actor(a);
    if p in s.processes { assert ProcessInv(s, p); }
    if a.Start? { StartIsFresh(s, p); }
  }

  lemma StartIsFresh(s: State, p: Pid)
    requires Inv(s) && p !in s.processes
    ensures p !in s.children && p !in s.dispatches
  {
  }

  lemma OwnTriggerStep(s: State, a: Action)
    requires Inv(s) && Enabled(s, a) && (IsChildAction(a) || a.Dispatch? || a.Write?)
    ensures Actor(a) in Apply(s, a).processes ==> ProcessInv(Apply(s, a), Actor(a))
  {
    hide HistoryInv;
    hide Guarded;
    CreatorsStay(s, a);
    var p := Actor(a);
    if p in s.processes { assert ProcessInv(s, p); }
  }

  /** Every other step leaves both histories alone. */
  lemma QuietFrame(s: State, a: Action)
    requires Enabled(s, a) && !IsChildAction(a) && !a.Dispatch? && !a.Write?
    ensures var t := Apply(s, a);
      && t.dispatches == s.dispatches && t.attempts == s.attempts && t.children == s.children
      && (a.Start? || t.processes.Keys == s.processes.Keys)
      && (a.Start? ==> a.p !in s.processes && t.processes.Keys == s.processes.Keys + {a.p})
      && (!a.Start? ==> a.p in s.processes && t.processes[a.p] == s.processes[a.p].(pc := t.processes[a.p].pc))
  {
    hide Guarded;
  }

  lemma QuietStep(s: State, a: Action)
    requires Inv(s) && Enabled(s, a) && !IsChildAction(a) && !a.Dispatch? && !a.Write?
    ensures HistoryInv(Apply(s, a))
  {
    hide ProcessInv;
    hide Apply;
    hide Enabled;
    QuietFrame(s, a);
    var t := Apply(s, a);
    forall q | q in s.processes
      ensures q in t.processes && t.processes[q] == s.processes[q].(pc := t.processes[q].pc) {
      if q != a.p { OthersUntouched(s, a, q); }
    }
  }

  lemma DispatchStep(s: State, a: Action)
    requires Inv(s) && Enabled(s, a) && a.Dispatch?
    ensures HistoryInv(Apply(s, a))
  {
    assert ProcessInv(s, a.p);
    hide ProcessInv;
  }

  lemma ChildQuietStep(s: State, a: Action)
    requires Inv(s) && Enabled(s, a) && IsChildAction(a) && !(a.ChildStep? && ChildAt(s, a.p, ChildWriteDue))
    ensures HistoryInv(Apply(s, a))
  {
    hide ProcessInv;
  }

  lemma AttemptStep(s: State, a: Action)
    requires Inv(s) && Enabled(s, a)
    requires a.Write? || (a.ChildStep? && ChildAt(s, a.p, ChildWriteDue))
    ensures HistoryInv(Apply(s, a))
  {
    hide Apply;
    AttemptFrame(s, a);
    NotYetAttempted(s, a);
    hide ProcessInv;
    forall i | 0 <= i < |s.attempts| ensures s.attempts[i].writer != a.p { assert s.attempts[i] in s.attempts; }
  }

  lemma NotYetAttempted(s: State, a: Action)
    requires Inv(s) && Enabled(s, a)
    requires a.Write? || (a.ChildStep? && ChildAt(s, a.p, ChildWriteDue))
    ensures a.p in s.processes && !s.processes[a.p].attempted
  {
    hide HistoryInv;
    assert a.p in s.processes && ProcessInv(s, a.p);
  }

  /** A write adds one attempt, by a process that is marked for it. */
  lemma AttemptFrame(s: State, a: Action)
    requires Enabled(s, a) && (a.Write? || (a.ChildStep? && ChildAt(s, a.p, ChildWriteDue)))
    ensures var t := Apply(s, a);
      && a.p in s.processes
      && t.dispatches == s.dispatches && t.attempts == s.attempts + [AttemptOf(s, a.p)]
      && t.children.Keys == s.children.Keys && t.processes.Keys == s.processes.Keys
      && (forall q :: q in s.processes && q != a.p ==> t.processes[q] == s.processes[q])
      && t.processes[a.p] == s.processes[a.p].(attempted := true, pc := t.processes[a.p].pc)
  {
  }

  lemma Step(s: State, a: Action)
    requires Inv(s) && Enabled(s, a)
    ensures Inv(Apply(s, a))
  {
    hide Apply;
    hide Enabled;
    hide ProcessInv;
    hide HistoryInv;
    if a.Write? || (a.ChildStep? && ChildAt(s, a.p, ChildWriteDue)) { AttemptStep(s, a); }
    else if IsChildAction(a) { ChildQuietStep(s, a); }
    else if a.Dispatch? { DispatchStep(s, a); }
    else { QuietStep(s, a); }
    forall p | p in Apply(s, a).processes ensures ProcessInv(Apply(s, a), p) {
      if p == Actor(a) {
        if IsChildAction(a) || a.Dispatch? || a.Write? { OwnTriggerStep(s, a); } else { OwnProcessStep(s, a); }
      } else {
        OthersUntouched(s, a, p);
        OtherStep(s, a, p);
      }
    }
  }

  lemma {:induction false} RunKeeps(s: State, actions: seq<Action>)
    requires Inv(s) && Legal(s, actions)
    ensures Inv(After(s, actions))
    decreases |actions|
  {
    hide Inv;
    hide Apply;
    hide Enabled;
    if actions != [] {
      Step(s, actions[0]);
      RunKeeps(Apply(s, actions[0]), actions[1..]);
    }
  }

  /** At most one process ever dispatches a trigger on a run, and at most one under an operation
      id under one claim root, whichever entry points are used: the one whose exclusive create of
      the shared intent, and of the claim, succeeded. */
  lemma OneDispatchPerRunAndOperation(actions: seq<Action>, i: nat, j: nat)
    requires Legal(EMPTY, actions)
    requires i < |After(EMPTY, actions).dispatches| && j < |After(EMPTY, actions).dispatches|
    ensures var s := After(EMPTY, actions);
      var p, q := s.dispatches[i], s.dispatches[j];
      && p in s.processes && q in s.processes
      && Creator(s, Intent(s.processes[p].run), p) && Creator(s, ClaimName(s.processes[p]), p)
      && (s.processes[p].run == s.processes[q].run ==> i == j)
      && (ClaimName(s.processes[p]) == ClaimName(s.processes[q]) ==> i == j)
  {
    hide After;
    hide Legal;
    RunKeeps(EMPTY, actions);
    var s := After(EMPTY, actions);
    assert ProcessInv(s, s.dispatches[i]) && ProcessInv(s, s.dispatches[j]);
  }

  /** The actuator FIFO is written at most once per run and at most once per operation id under
      one claim root, by the dispatching process or the executor it started. */
  lemma OneWritePerRunAndOperation(actions: seq<Action>, i: nat, j: nat)
    requires Legal(EMPTY, actions)
    requires i < |After(EMPTY, actions).attempts| && j < |After(EMPTY, actions).attempts|
    ensures var s := After(EMPTY, actions);
      var a, b := s.attempts[i], s.attempts[j];
      && Dispatcher(s, a.writer) && Creator(s, Intent(a.run), a.writer) && Creator(s, Claim(a.run.root, a.op), a.writer)
      && (a.run == b.run ==> i == j)
      && (a.run.root == b.run.root && a.op == b.op ==> i == j)
  {
    hide After;
    hide Legal;
    RunKeeps(EMPTY, actions);
    var s := After(EMPTY, actions);
    assert s.attempts[i] in s.attempts && s.attempts[j] in s.attempts;
    assert ProcessInv(s, s.attempts[i].writer) && ProcessInv(s, s.attempts[j].writer);
  }
}
