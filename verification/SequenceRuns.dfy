/** The bounded sequence composed: the supervisor, the commands it starts, the FIFO and one reader
    that starts at the first transition, interleaved; everyone may stop anywhere. */
module SequenceRuns {
  import opened Bytes
  import S = Supervisor

  const TRANSITION_COUNT: nat := 6

  /** The planned ratio of a transition. */
  function Planned(k: nat): nat {
    if k == 0 then 50 else if k == 1 then 75 else if k == 2 then 100 else if k == 3 then 75 else if k == 4 then 50
    else 25
  }

  /** Where the supervisor is; k is the transition it works on. */
  datatype Phase = GateDue | BindDue | BindRunning | TriggerDue | TriggerRunning | SupervisorStopped

  /** A command the supervisor started. It may outlive the supervisor. */
  datatype BindCommand = NoBind | BindStarted(k: nat) | BindWritten(k: nat)
  datatype TriggerCommand = NoTrigger | TriggerArmed(k: nat) | TriggerFired(k: nat)

  datatype Reader =
    | Idle
    | LoadDue
    | LinkDue(ratio: nat)
    | UnlinkDue(ratio: nat)
    | ExecuteDue(ratio: nat)
    | Executing
    | ReaderStopped(bindingMissing: bool)

  /** pending and consumed are the binding directory, by transition; tokens is the FIFO's content;
      next is the reader's transition. The rest is history: bindingsWritten counts every binding
      written, bindingsKept those no cleanup removed, log what the supervisor did. */
  datatype State = State(
    k: nat, phase: Phase, bind: BindCommand, trigger: TriggerCommand,
    pending: map<nat, nat>, consumed: set<nat>, tokens: nat,
    reader: Reader, next: nat,
    bindingsWritten: nat, bindingsKept: nat, tokensWritten: nat, tokensRead: nat, links: nat, executed: seq<nat>,
    log: seq<S.Event>)

  const START := State(0, GateDue, NoBind, NoTrigger, map[], {}, 0, Idle, 0, 0, 0, 0, 0, 0, [], [])

  datatype Action =
    | GatePasses | StartBind | BindReturns | StartTrigger | TriggerReturns | SupervisorStops
    | WriteBinding | BindCleansUp | BindDies | WriteToken | TriggerDies
    | ReadToken | Load | Link | Unlink | Execute | CommandReturns | ReaderStops

  predicate Enabled(s: State, a: Action) {
    match a
    case GatePasses => s.phase == GateDue
    case StartBind => s.phase == BindDue
    case BindReturns => s.phase == BindRunning && s.bind == BindWritten(s.k)
    case StartTrigger => s.phase == TriggerDue
    case TriggerReturns => s.phase == TriggerRunning && s.trigger == TriggerFired(s.k)
    case SupervisorStops => true
    case WriteBinding => s.bind.BindStarted?
    case BindCleansUp => s.bind != NoBind
    case BindDies => true
    case WriteToken => s.trigger.TriggerArmed?
    case TriggerDies => true
    case ReadToken => s.reader == Idle && s.tokens > 0
    case Load => s.reader == LoadDue
    case Link => s.reader.LinkDue?
    case Unlink => s.reader.UnlinkDue?
    case Execute => s.reader.ExecuteDue?
    case CommandReturns => s.reader == Executing
    case ReaderStops => true
  }

  predicate IsReaderAction(a: Action) {
    a.ReadToken? || a.Load? || a.Link? || a.Unlink? || a.Execute? || a.CommandReturns? || a.ReaderStops?
  }

  predicate IsCommandAction(a: Action) {
    a.WriteBinding? || a.BindCleansUp? || a.BindDies? || a.WriteToken? || a.TriggerDies?
  }

  /** The supervisor: a command that fails, times out or returns without its marker is SupervisorStops. */
  function Supervise(s: State, a: Action): State
    requires Enabled(s, a)
    requires !IsReaderAction(a) && !IsCommandAction(a)
  {
    match a
    case GatePasses =>
      s.(phase := if s.k < TRANSITION_COUNT then BindDue else SupervisorStopped, log := s.log + [S.PassEvent])
    case StartBind => s.(phase := BindRunning, bind := BindStarted(s.k))
    case BindReturns => s.(phase := TriggerDue, bind := NoBind, log := s.log + [S.BindEvent(s.k)])
    case StartTrigger =>
      s.(phase := TriggerRunning, trigger := TriggerArmed(s.k), log := s.log + [S.TriggerEvent(s.k)])
    case TriggerReturns => s.(phase := GateDue, trigger := NoTrigger, k := s.k + 1)
    case _ => s.(phase := SupervisorStopped)
  }

  /** The binding writer and the trigger executor. The writer's create is exclusive; its cleanup
      after a failure removes what it wrote. */
  function Command(s: State, a: Action): State
    requires Enabled(s, a)
    requires IsCommandAction(a)
  {
    match a
    case WriteBinding =>
      if s.bind.k in s.pending then s.(bind := NoBind)
      else
        s.(pending := s.pending[s.bind.k := Planned(s.bind.k)],
           bind := BindWritten(s.bind.k), bindingsWritten := s.bindingsWritten + 1, bindingsKept := s.bindingsKept + 1)
    case BindCleansUp =>
      if s.bind.BindWritten? then
        s.(pending := s.pending - {s.bind.k}, bind := NoBind,
           bindingsKept := if s.bindingsKept > 0 then s.bindingsKept - 1 else 0)
      else s.(bind := NoBind)
    case BindDies => s.(bind := NoBind)
    case WriteToken =>
      s.(tokens := s.tokens + 1, trigger := TriggerFired(s.trigger.k), tokensWritten := s.tokensWritten + 1)
    case _ => s.(trigger := NoTrigger)
  }

  /** The reader's loop. */
  function Read(s: State, a: Action): State
    requires Enabled(s, a)
    requires IsReaderAction(a)
  {
    match a
    case ReadToken =>
      var t := s.(tokens := s.tokens - 1, tokensRead := s.tokensRead + 1);
      if s.next >= TRANSITION_COUNT then t.(reader := ReaderStopped(false)) else t.(reader := LoadDue)
    case Load =>
      if s.next in s.consumed then s.(reader := ReaderStopped(false))
      else if s.next !in s.pending then s.(reader := ReaderStopped(true))
      else s.(reader := LinkDue(s.pending[s.next]))
    case Link =>
      if s.next in s.consumed then s.(reader := ReaderStopped(false))
      else if s.next !in s.pending then s.(reader := ReaderStopped(true))
      else s.(reader := UnlinkDue(s.reader.ratio), consumed := s.consumed + {s.next}, links := s.links + 1)
    case Unlink => s.(reader := ExecuteDue(s.reader.ratio), pending := s.pending - {s.next})
    case Execute => s.(reader := Executing, executed := s.executed + [s.reader.ratio])
    case CommandReturns => s.(reader := Idle, next := s.next + 1)
    case _ => s.(reader := if s.reader.ReaderStopped? then s.reader else ReaderStopped(false))
  }

  function Apply(s: State, a: Action): State
    requires Enabled(s, a)
  {
    if IsReaderAction(a) then Read(s, a) else if IsCommandAction(a) then Command(s, a) else Supervise(s, a)
  }

  ghost predicate Legal(s: State, actions: seq<Action>)
    decreases |actions|
  {
    actions == [] || (Enabled(s, actions[0]) && Legal(Apply(s, actions[0]), actions[1..]))
  }

  ghost function After(s: State, actions: seq<Action>): State
    requires Legal(s, actions)
    decreases |actions|
  {
    if actions == [] then s else After(Apply(s, actions[0]), actions[1..])
  }

  // ---- what every step keeps ----

  /** What a supervisor still running at transition k has done: a start of its script. */
  function Done(k: nat, phase: Phase): seq<S.Event> {
    match phase
    case GateDue => S.Script(k)[..3 * k]
    case BindDue => S.Script(k)
    case BindRunning => S.Script(k)
    case TriggerDue => S.Script(k) + [S.BindEvent(k)]
    case TriggerRunning => S.Script(k) + [S.BindEvent(k), S.TriggerEvent(k)]
    case SupervisorStopped => []
  }

  predicate SupervisorInv(s: State) {
    && s.k <= TRANSITION_COUNT
    && (s.k == TRANSITION_COUNT ==> s.phase == GateDue || s.phase == SupervisorStopped)
    && (s.phase != SupervisorStopped ==> s.log == Done(s.k, s.phase))
    && s.log <= S.Script(TRANSITION_COUNT)
  }

  /** Bindings 0 .. bindingsKept-1 are written and kept; tokens lag behind them. At most one binding
      is ever cleaned up, and nothing is started after that. */
  predicate CommandInv(s: State) {
    && s.bindingsKept <= s.bindingsWritten <= s.bindingsKept + 1
    && (s.bindingsWritten > s.bindingsKept ==>
          && s.bind == NoBind && s.trigger == NoTrigger && s.bindingsKept == s.tokensWritten < TRANSITION_COUNT
          && s.phase in {BindRunning, SupervisorStopped})
    && s.tokensWritten <= s.bindingsKept <= s.tokensWritten + 1
    && s.bindingsKept <= TRANSITION_COUNT
    && s.tokensRead + s.tokens == s.tokensWritten
    && (s.phase in {GateDue, BindDue} ==>
          s.bindingsKept == s.tokensWritten == s.k && s.bind == NoBind && s.trigger == NoTrigger)
    && (s.phase == BindRunning ==>
          s.tokensWritten == s.k && s.trigger == NoTrigger && (s.bind == NoBind || s.bind.k == s.k))
    && (s.phase == TriggerDue ==>
          s.tokensWritten == s.k && s.bindingsKept == s.k + 1 && s.bind == NoBind && s.trigger == NoTrigger)
    && (s.phase == TriggerRunning ==> s.bindingsKept == s.k + 1 && s.bind == NoBind)
    && (s.bind.BindStarted? ==>
          s.bind.k == s.tokensWritten == s.bindingsKept && s.bind.k < TRANSITION_COUNT && s.trigger == NoTrigger)
    && (s.bind.BindWritten? ==>
          s.bind.k == s.tokensWritten && s.bindingsKept == s.bind.k + 1 && s.trigger == NoTrigger)
    && (s.trigger.TriggerArmed? ==>
          s.trigger.k == s.tokensWritten && s.bindingsKept == s.trigger.k + 1 && s.bind == NoBind)
    && (s.trigger.TriggerFired? ==> s.tokensWritten == s.trigger.k + 1 == s.bindingsKept && s.bind == NoBind)
    && (s.trigger != NoTrigger && s.phase == TriggerRunning ==> s.trigger.k == s.k)
  }

  predicate Busy(r: Reader) { r.LoadDue? || r.LinkDue? || r.UnlinkDue? || r.ExecuteDue? || r.Executing? }

  predicate AfterLink(r: Reader) { r.UnlinkDue? || r.ExecuteDue? || r.Executing? }

  ghost predicate ReaderInv(s: State) {
    && !(s.reader == ReaderStopped(true))
    && (!s.reader.ReaderStopped? ==> s.tokensRead == s.next + if Busy(s.reader) then 1 else 0)
    && (!s.reader.ReaderStopped? ==> s.links == s.next + if AfterLink(s.reader) then 1 else 0)
    && (!s.reader.ReaderStopped? ==> |s.executed| == s.next + if s.reader.Executing? then 1 else 0)
    && |s.executed| <= s.links <= s.tokensRead
    && s.links <= TRANSITION_COUNT
    && (forall i :: i in s.consumed <==> 0 <= i < s.links)
    && (forall i :: s.links <= i < s.bindingsKept ==> i in s.pending && s.pending[i] == Planned(i))
    && (forall i :: i in s.pending ==> i < s.bindingsKept)
    && (s.reader.LinkDue? || s.reader.UnlinkDue? || s.reader.ExecuteDue? ==>
          s.next < TRANSITION_COUNT && s.reader.ratio == Planned(s.next))
    && (forall i :: 0 <= i < |s.executed| ==> s.executed[i] == Planned(i))
  }

  ghost predicate Inv(s: State) { SupervisorInv(s) && CommandInv(s) && ReaderInv(s) }

  lemma SupervisorStep(s: State, a: Action)
    requires SupervisorInv(s) && CommandInv(s) && Enabled(s, a)
    ensures SupervisorInv(Apply(s, a))
  {
    hide CommandInv;
    hide Planned;
    if IsReaderAction(a) { ReaderFrame(s, a); }
    else if IsCommandAction(a) { CommandFrame(s, a); }
    else { SuperviseStep(s, a); }
  }

  lemma ReaderFrame(s: State, a: Action)
    requires Enabled(s, a) && IsReaderAction(a)
    ensures var t := Read(s, a);
      && t.k == s.k && t.phase == s.phase && t.log == s.log && t.bind == s.bind && t.trigger == s.trigger
      && t.bindingsKept == s.bindingsKept && t.bindingsWritten == s.bindingsWritten
      && t.tokensWritten == s.tokensWritten
  {
  }

  lemma CommandFrame(s: State, a: Action)
    requires Enabled(s, a) && IsCommandAction(a)
    ensures var t := Command(s, a);
      && t.k == s.k && t.phase == s.phase && t.log == s.log && t.reader == s.reader && t.next == s.next
      && t.consumed == s.consumed && t.links == s.links && t.executed == s.executed && t.tokensRead == s.tokensRead
  {
    hide Planned;
  }

  lemma SuperviseFrame(s: State, a: Action)
    requires Enabled(s, a) && !IsReaderAction(a) && !IsCommandAction(a)
    ensures var t := Supervise(s, a);
      t == s.(k := t.k, phase := t.phase, log := t.log, bind := t.bind, trigger := t.trigger)
  {
  }

  lemma SuperviseStep(s: State, a: Action)
    requires SupervisorInv(s) && Enabled(s, a) && !IsReaderAction(a) && !IsCommandAction(a)
    ensures SupervisorInv(Supervise(s, a))
  {
    hide Done;
    hide S.Script;
    if a.GatePasses? {
      DoneAtGate(s.k);
    } else if !a.SupervisorStops? {
      DoneGrows(s.k);
    }
    if s.k < TRANSITION_COUNT { S.ScriptsExtend(s.k + 1, TRANSITION_COUNT); }
    S.ScriptsExtend(s.k, TRANSITION_COUNT);
  }

  lemma DoneAtGate(k: nat)
    ensures Done(k, GateDue) + [S.PassEvent] == S.Script(k) == Done(k, BindDue)
  {
  }

  lemma DoneGrows(k: nat)
    ensures Done(k, BindDue) == Done(k, BindRunning) == S.Script(k)
    ensures Done(k, BindRunning) + [S.BindEvent(k)] == Done(k, TriggerDue)
    ensures Done(k, TriggerDue) + [S.TriggerEvent(k)] == Done(k, TriggerRunning) == Done(k + 1, GateDue)
    ensures Done(k, TriggerRunning) <= S.Script(k + 1)
  {
    assert S.Script(k + 1)[..3 * k + 3] == S.Script(k) + [S.BindEvent(k), S.TriggerEvent(k)];
  }

  lemma CommandStep(s: State, a: Action)
    requires SupervisorInv(s) && CommandInv(s) && Enabled(s, a)
    ensures CommandInv(Apply(s, a))
  {
    hide Planned;
    if IsReaderAction(a) {
      ReaderFrame(s, a);
      assert Read(s, a).tokensRead + Read(s, a).tokens == s.tokensRead + s.tokens;
    } else if IsCommandAction(a) {
      CommandActionStep(s, a);
    } else {
      SuperviseCommandStep(s, a);
    }
    hide Read;
    hide Command;
    hide Supervise;
  }

  lemma CommandActionStep(s: State, a: Action)
    requires SupervisorInv(s) && CommandInv(s) && Enabled(s, a) && IsCommandAction(a)
    ensures CommandInv(Command(s, a))
  {
    hide Planned;
  }

  lemma SuperviseCommandStep(s: State, a: Action)
    requires SupervisorInv(s) && CommandInv(s) && Enabled(s, a) && !IsReaderAction(a) && !IsCommandAction(a)
    ensures CommandInv(Supervise(s, a))
  {
  }

  lemma ReaderStep(s: State, a: Action)
    requires Inv(s) && Enabled(s, a)
    ensures ReaderInv(Apply(s, a))
  {
    hide Planned;
    hide ReaderInv;
    hide CommandInv;
    hide SupervisorInv;
    hide Read;
    hide Command;
    hide Supervise;
    hide Enabled;
    if IsReaderAction(a) { ReadStep(s, a); }
    else if IsCommandAction(a) { DirectoryStep(s, a); }
    else { SuperviseKeepsReader(s, a); }
  }

  lemma SuperviseKeepsReader(s: State, a: Action)
    requires ReaderInv(s) && Enabled(s, a) && !IsReaderAction(a) && !IsCommandAction(a)
    ensures ReaderInv(Supervise(s, a))
  {
    hide Supervise;
    hide Planned;
    SuperviseFrame(s, a);
  }

  lemma DirectoryStep(s: State, a: Action)
    requires CommandInv(s) && ReaderInv(s) && Enabled(s, a) && IsCommandAction(a)
    ensures ReaderInv(Command(s, a))
  {
    hide Planned;
  }

  lemma ReadStep(s: State, a: Action)
    requires CommandInv(s) && ReaderInv(s) && Enabled(s, a) && IsReaderAction(a)
    ensures ReaderInv(Read(s, a))
  {
    hide Planned;
  }

  lemma Step(s: State, a: Action)
    requires Inv(s) && Enabled(s, a)
    ensures Inv(Apply(s, a))
  {
    hide SupervisorInv;
    hide CommandInv;
    hide ReaderInv;
    hide Apply;
    hide Enabled;
    SupervisorStep(s, a);
    CommandStep(s, a);
    ReaderStep(s, a);
  }

  lemma {:induction false} RunKeeps(s: State, actions: seq<Action>)
    requires Inv(s) && Legal(s, actions)
    ensures Inv(After(s, actions))
    decreases |actions|
  {
    hide SupervisorInv;
    hide CommandInv;
    hide ReaderInv;
    hide Apply;
    hide Enabled;
    if actions != [] {
      Step(s, actions[0]);
      RunKeeps(Apply(s, actions[0]), actions[1..]);
    }
  }

  lemma StartInv()
    ensures Inv(START)
  {
  }

  lemma PlanPrefix(es: seq<nat>)
    requires |es| <= TRANSITION_COUNT && forall i :: 0 <= i < |es| ==> es[i] == Planned(i)
    ensures es <= [50, 75, 100, 75, 50, 25]
  {
    var plan := [50, 75, 100, 75, 50, 25];
    assert forall i :: 0 <= i < |es| ==> plan[i] == Planned(i);
  }

  /** At every moment of every run: commands started by the reader never outnumber consumed
      bindings, these never tokens read, these never tokens written, these never the bindings
      written and kept; at most one binding is ever cleaned up; the reader never finds its binding
      missing; the executed ratios are a prefix of the plan; and what the supervisor did is a start
      of its script, as for the supervisor on its own. */
  lemma EveryRun(actions: seq<Action>)
    requires Legal(START, actions)
    ensures var s := After(START, actions);
      && |s.executed| <= s.links <= s.tokensRead <= s.tokensWritten <= s.bindingsKept <= s.bindingsWritten
      && s.bindingsWritten <= TRANSITION_COUNT && s.bindingsWritten <= s.bindingsKept + 1
      && s.reader != ReaderStopped(true)
      && s.executed <= [50, 75, 100, 75, 50, 25]
      && s.log <= S.Script(TRANSITION_COUNT)
  {
    hide Legal;
    hide After;
    hide Planned;
    hide Inv;
    hide ReaderInv;
    hide CommandInv;
    hide SupervisorInv;
    StartInv();
    RunKeeps(START, actions);
    InvMeans(After(START, actions));
  }

  lemma InvMeans(s: State)
    requires Inv(s)
    ensures |s.executed| <= s.links <= s.tokensRead <= s.tokensWritten <= s.bindingsKept <= s.bindingsWritten
    ensures s.bindingsWritten <= TRANSITION_COUNT && s.bindingsWritten <= s.bindingsKept + 1
    ensures s.reader != ReaderStopped(true) && s.executed <= [50, 75, 100, 75, 50, 25]
    ensures s.log <= S.Script(TRANSITION_COUNT)
  {
    hide Planned;
    PlanPrefix(s.executed);
  }

  /** So in every run each trigger was started right after its binding was written, and that right
      after a gate passed since the previous trigger. */
  lemma EveryTriggerIsGated(actions: seq<Action>, i: nat)
    requires Legal(START, actions) && i < |After(START, actions).log| && After(START, actions).log[i].TriggerEvent?
    ensures var log := After(START, actions).log;
      && i == 3 * log[i].k + 2 && log[i - 1] == S.BindEvent(log[i].k) && log[i - 2] == S.PassEvent
      && (i >= 3 ==> log[i - 3] == S.TriggerEvent(log[i].k - 1))
  {
    hide Legal;
    hide After;
    EveryRun(actions);
    S.TriggersAreGated(TRANSITION_COUNT, After(START, actions).log, i);
  }
}
