/** Ratio bindings on a shared directory: any number of binding writers and FIFO readers,
    interleaved between any two file operations and stopping anywhere. */
module BindingRuns {
  import opened Bytes

  type Pid = nat
  type Inode = nat

  const TRANSITION_COUNT: nat := 6
  const ALLOWED_RATIOS: set<nat> := {25, 50, 75, 100}

  /** The two names a transition has. */
  datatype Name = Pending(index: nat) | Consumed(index: nat)

  /** The fields of a binding the reader uses; the others identify the run. */
  datatype Binding = Binding(index: nat, ratio: nat, id: nat)

  /** A file being written does not parse; it is complete from the moment its bytes do, even before the
      last line feed is written. */
  datatype Content = Partial | Complete(binding: Binding)

  datatype WriterPc = CreateDue | Writing(inode: Inode) | Syncing(inode: Inode) | WriterStopped
  datatype Writer = Writer(slot: nat, binding: Binding, pc: WriterPc)

  datatype ReaderPc =
    | TokenDue
    | CheckDue
    | OpenDue
    | ReadDue(inode: Inode)
    | CheckAgainDue(inode: Inode, binding: Binding)
    | LinkDue(inode: Inode, binding: Binding)
    | UnlinkDue(inode: Inode, binding: Binding)
    | ExecuteDue(inode: Inode, binding: Binding)
    | Running
    | ReaderStopped

  /** next is the reader's next_transition_index, used its consumed_binding_ids. The rest is
      history: the actuator commands it has started, and when it last opened a
      binding and linked one. */
  datatype Reader = Reader(
    initial: nat, next: nat, used: set<nat>, pc: ReaderPc, ran: nat, openedAt: nat, linkedAt: nat)

  /** A command that was started, with the file its binding was read from and when its reader
      opened and linked. */
  datatype Execution = Execution(
    reader: Pid, index: nat, ratio: nat, id: nat, read: Inode, openedAt: nat, linkedAt: nat)

  /** What happens to the directory and its files. */
  datatype Event =
    | Created(slot: nat, inode: Inode)
    | Completed(inode: Inode, binding: Binding)
    | Removed(slot: nat)  // by a writer that failed after its create
    | OpenedBy(reader: Pid, index: nat, inode: Inode)
    | LinkedBy(reader: Pid, index: nat, inode: Inode)

  /** linkers, executions, cleanups and trace are history: who created each consumed name, the
      actuator commands started, whether a writer that failed after its create removed a name, and
      all events in order. */
  datatype State = State(
    names: map<Name, Inode>, inodes: seq<Content>,
    writers: map<Pid, Writer>, readers: map<Pid, Reader>,
    linkers: map<nat, Pid>, executions: seq<Execution>, cleanups: bool, trace: seq<Event>)

  const EMPTY := State(map[], [], map[], map[], map[], [], false, [])

  datatype Action =
    | StartWriter(p: Pid, slot: nat, binding: Binding)
    | Create(p: Pid)
    | WriteAll(p: Pid)
    | Sync(p: Pid)
    | WriterFails(p: Pid)
    | WriterCrash(p: Pid)
    | StartReader(p: Pid, initial: nat)
    | Token(p: Pid)
    | Check(p: Pid)
    | Open(p: Pid)
    | Read(p: Pid)
    | CheckAgain(p: Pid)
    | Link(p: Pid)
    | Unlink(p: Pid)
    | Execute(p: Pid)
    | ActuatorReturns(p: Pid)
    | ReaderStops(p: Pid)

  predicate IsWriterAction(a: Action) {
    a.StartWriter? || a.Create? || a.WriteAll? || a.Sync? || a.WriterFails? || a.WriterCrash?
  }

  predicate Enabled(s: State, a: Action) {
    match a
    case StartWriter(p, _, _) => p !in s.writers
    case Create(p) => p in s.writers && s.writers[p].pc.CreateDue?
    case WriteAll(p) => p in s.writers && s.writers[p].pc.Writing? && s.writers[p].pc.inode < |s.inodes|
    case Sync(p) => p in s.writers && s.writers[p].pc.Syncing?
    case WriterFails(p) => p in s.writers && (s.writers[p].pc.Writing? || s.writers[p].pc.Syncing?)
    case WriterCrash(p) => p in s.writers
    case StartReader(p, initial) => p !in s.readers && 1 <= initial <= TRANSITION_COUNT
    case Token(p) => p in s.readers && s.readers[p].pc.TokenDue?
    case Check(p) => p in s.readers && s.readers[p].pc.CheckDue?
    case Open(p) => p in s.readers && s.readers[p].pc.OpenDue?
    case Read(p) => p in s.readers && s.readers[p].pc.ReadDue?
    case CheckAgain(p) => p in s.readers && s.readers[p].pc.CheckAgainDue?
    case Link(p) => p in s.readers && s.readers[p].pc.LinkDue?
    case Unlink(p) => p in s.readers && s.readers[p].pc.UnlinkDue?
    case Execute(p) => p in s.readers && s.readers[p].pc.ExecuteDue?
    case ActuatorReturns(p) => p in s.readers && s.readers[p].pc.Running?
    case ReaderStops(p) => p in s.readers
  }

  /** The writer: exclusive create, write, fsync; a failure after the create unlinks the path. */
  function ApplyWriter(s: State, a: Action): State
    requires Enabled(s, a) && IsWriterAction(a)
  {
    if a.StartWriter? then s.(writers := s.writers[a.p := Writer(a.slot, a.binding, CreateDue)])
    else
      var w := s.writers[a.p];
      match a
      case Create(p) =>
        if Pending(w.slot) in s.names then s.(writers := s.writers[p := w.(pc := WriterStopped)])
        else
          s.(names := s.names[Pending(w.slot) := |s.inodes|], inodes := s.inodes + [Partial],
             writers := s.writers[p := w.(pc := Writing(|s.inodes|))],
             trace := s.trace + [Created(w.slot, |s.inodes|)])
      case WriteAll(p) =>
        s.(inodes := s.inodes[w.pc.inode := Complete(w.binding)],
           writers := s.writers[p := w.(pc := Syncing(w.pc.inode))],
           trace := s.trace + [Completed(w.pc.inode, w.binding)])
      case WriterFails(p) =>
        s.(names := s.names - {Pending(w.slot)}, writers := s.writers[p := w.(pc := WriterStopped)],
           cleanups := true, trace := s.trace + [Removed(w.slot)])
      case _ => s.(writers := s.writers[a.p := w.(pc := WriterStopped)])
  }

  /** What load_and_validate_binding demands of a parsed binding. */
  predicate Accepted(r: Reader, b: Binding) {
    b.id !in r.used && b.index == r.next && b.ratio in ALLOWED_RATIOS
  }

  function Stop(r: Reader): Reader { r.(pc := ReaderStopped) }

  /** The command a reader starts. */
  function Started(p: Pid, r: Reader): Execution
    requires r.pc.ExecuteDue?
  {
    Execution(p, r.next, r.pc.binding.ratio, r.pc.binding.id, r.pc.inode, r.openedAt, r.linkedAt)
  }

  /** The reader: token, check, open, read and validate, check again, link, unlink, run the actuator. */
  function ApplyReader(s: State, a: Action): State
    requires Enabled(s, a) && !IsWriterAction(a)
  {
    if a.StartReader? then s.(readers := s.readers[a.p := Reader(a.initial, a.initial, {}, TokenDue, 0, 0, 0)])
    else
      var p, r := a.p, s.readers[a.p];
      match a
      case Token(_) =>
        s.(readers := s.readers[p := if r.next > TRANSITION_COUNT then Stop(r) else r.(pc := CheckDue)])
      case Check(_) =>
        s.(readers := s.readers[p := if Consumed(r.next) in s.names then Stop(r) else r.(pc := OpenDue)])
      case Open(_) =>
        var name := Pending(r.next);
        if name !in s.names then s.(readers := s.readers[p := Stop(r)])
        else
          s.(readers := s.readers[p := r.(pc := ReadDue(s.names[name]), openedAt := |s.trace|)],
             trace := s.trace + [OpenedBy(p, r.next, s.names[name])])
      case Read(_) =>
        var inode := r.pc.inode;
        s.(readers := s.readers[p :=
             if inode < |s.inodes| && s.inodes[inode].Complete? && Accepted(r, s.inodes[inode].binding) then
               r.(pc := CheckAgainDue(inode, s.inodes[inode].binding))
             else Stop(r)])
      case CheckAgain(_) =>
        s.(readers := s.readers[p :=
             if Consumed(r.next) in s.names then Stop(r) else r.(pc := LinkDue(r.pc.inode, r.pc.binding))])
      case Link(_) =>
        if Pending(r.next) !in s.names || Consumed(r.next) in s.names then s.(readers := s.readers[p := Stop(r)])
        else
          s.(names := s.names[Consumed(r.next) := s.names[Pending(r.next)]],
             linkers := s.linkers[r.next := p],
             readers := s.readers[p := r.(pc := UnlinkDue(r.pc.inode, r.pc.binding), linkedAt := |s.trace|)],
             trace := s.trace + [LinkedBy(p, r.next, s.names[Pending(r.next)])])
      case Unlink(_) =>
        if Pending(r.next) !in s.names then s.(readers := s.readers[p := Stop(r)])
        else
          s.(names := s.names - {Pending(r.next)},
             readers := s.readers[p :=
               r.(pc := ExecuteDue(r.pc.inode, r.pc.binding), used := r.used + {r.pc.binding.id})])
      case Execute(_) =>
        s.(executions := s.executions + [Started(p, r)],
           readers := s.readers[p := r.(pc := Running, ran := r.ran + 1)])
      case ActuatorReturns(_) => s.(readers := s.readers[p := r.(pc := TokenDue, next := r.next + 1)])
      case _ => s.(readers := s.readers[p := Stop(r)])
  }

  function Apply(s: State, a: Action): State
    requires Enabled(s, a)
  {
    if IsWriterAction(a) then ApplyWriter(s, a) else ApplyReader(s, a)
  }

  ghost predicate Legal(s: State, actions: seq<Action>)
    decreases |actions|
  {
    actions == [] || (Enabled(s, actions[0]) && Legal(Apply(s, actions[0]), actions[1..]))
  }

  ghost function After(s: State, actions: seq<Action>): State
    requires Legal(s, actions)
    decreases |actions|
  {
    if actions == [] then s else After(Apply(s, actions[0]), actions[1..])
  }

  // ---- what every step keeps ----

  /** Between reading a binding and starting its actuator. */
  predicate HoldsBinding(pc: ReaderPc) { pc.CheckAgainDue? || pc.LinkDue? || pc.UnlinkDue? || pc.ExecuteDue? }

  predicate Linked(pc: ReaderPc) { pc.UnlinkDue? || pc.ExecuteDue? || pc.Running? }

  predicate Holds(s: State, inode: Inode, b: Binding) { inode < |s.inodes| && s.inodes[inode] == Complete(b) }

  predicate ReaderInv(s: State, p: Pid)
    requires p in s.readers
  {
    var r := s.readers[p];
    && r.initial <= r.next
    && (r.pc != ReaderStopped ==> r.initial + r.ran == r.next + if r.pc.Running? then 1 else 0)
    && (Linked(r.pc) ==> r.next in s.linkers && s.linkers[r.next] == p)
    && (HoldsBinding(r.pc) ==>
          Holds(s, r.pc.inode, r.pc.binding) && r.pc.binding.index == r.next && r.pc.binding.ratio in ALLOWED_RATIOS)
    && ((r.pc.ReadDue? || HoldsBinding(r.pc)) && !s.cleanups ==>
          if Linked(r.pc) then Consumed(r.next) in s.names && s.names[Consumed(r.next)] == r.pc.inode
          else
            || Consumed(r.next) in s.names
            || (Pending(r.next) in s.names && s.names[Pending(r.next)] == r.pc.inode))
  }

  /** A writer writes only the file it created, and stops before the file is complete for good. */
  predicate WriterInv(s: State, p: Pid)
    requires p in s.writers
  {
    var w := s.writers[p];
    && (w.pc.Writing? ==> w.pc.inode < |s.inodes| && s.inodes[w.pc.inode] == Partial)
  }

  ghost predicate WritersApart(s: State) {
    forall p, q :: p in s.writers && q in s.writers && p != q && s.writers[p].pc.Writing? && s.writers[q].pc.Writing?
      ==> s.writers[p].pc.inode != s.writers[q].pc.inode
  }

  predicate ExecutionInv(s: State, e: Execution) {
    && e.reader in s.readers
    && s.readers[e.reader].initial <= e.index < s.readers[e.reader].initial + s.readers[e.reader].ran
    && e.index in s.linkers && s.linkers[e.index] == e.reader && e.ratio in ALLOWED_RATIOS
    && (!s.cleanups ==>
          && Consumed(e.index) in s.names && s.names[Consumed(e.index)] < |s.inodes|
          && s.inodes[s.names[Consumed(e.index)]].Complete?
          && s.inodes[s.names[Consumed(e.index)]].binding.ratio == e.ratio
          && s.inodes[s.names[Consumed(e.index)]].binding.index == e.index)
  }

  ghost predicate HistoryInv(s: State) {
    && (forall i :: i in s.linkers <==> Consumed(i) in s.names)
    && (forall e :: e in s.executions ==> ExecutionInv(s, e))
    && (forall i, j :: 0 <= i < j < |s.executions| && s.executions[i].reader == s.executions[j].reader
          ==> s.executions[i].index < s.executions[j].index)
  }

  ghost predicate Inv(s: State) {
    && HistoryInv(s) && WritersApart(s)
    && (forall p :: p in s.readers ==> ReaderInv(s, p))
    && (forall p :: p in s.writers ==> WriterInv(s, p))
  }

  /** What one step may do to the directory: complete files stay as they are, consumed names and
      their linkers stay, and without cleanups a pending name only goes once it is consumed. */
  ghost predicate DirectoryGrows(s: State, t: State) {
    && |s.inodes| <= |t.inodes|
    && (forall n, b :: Holds(s, n, b) ==> Holds(t, n, b))
    && (forall i :: Consumed(i) in s.names ==> Consumed(i) in t.names && t.names[Consumed(i)] == s.names[Consumed(i)])
    && (forall i :: i in s.linkers ==> i in t.linkers && t.linkers[i] == s.linkers[i])
    && (s.cleanups ==> t.cleanups)
    && (!t.cleanups ==> forall i :: Pending(i) in s.names ==>
          Consumed(i) in t.names || (Pending(i) in t.names && t.names[Pending(i)] == s.names[Pending(i)]))
  }

  lemma WriterGrows(s: State, a: Action)
    requires Inv(s) && Enabled(s, a) && IsWriterAction(a)
    ensures DirectoryGrows(s, Apply(s, a))
  {
    hide HistoryInv;
    if a.p in s.writers { assert WriterInv(s, a.p); }
  }

  lemma ReaderGrows(s: State, a: Action)
    requires Inv(s) && Enabled(s, a) && !IsWriterAction(a)
    ensures DirectoryGrows(s, Apply(s, a))
  {
    hide ExecutionInv;
    hide WriterInv;
    if a.p in s.readers { assert ReaderInv(s, a.p); }
  }

  lemma ReaderUntouched(s: State, t: State, p: Pid)
    requires p in s.readers && ReaderInv(s, p) && DirectoryGrows(s, t)
    requires p in t.readers && t.readers[p] == s.readers[p]
    ensures ReaderInv(t, p)
  {
  }

  /** Only the acting process's own entry changes. */
  lemma WriterLeavesReaders(s: State, a: Action)
    requires Enabled(s, a) && IsWriterAction(a)
    ensures Apply(s, a).readers == s.readers
  {
  }

  lemma ReaderLeavesOthers(s: State, a: Action, p: Pid)
    requires Enabled(s, a) && !IsWriterAction(a) && p != a.p
    ensures p in Apply(s, a).readers <==> p in s.readers
    ensures p in s.readers ==> Apply(s, a).readers[p] == s.readers[p]
  {
    hide Accepted;
  }

  lemma OwnReaderStep(s: State, a: Action)
    requires Inv(s) && Enabled(s, a) && !IsWriterAction(a)
    ensures a.p in Apply(s, a).readers && ReaderInv(Apply(s, a), a.p)
  {
    hide ExecutionInv;
    hide WriterInv;
    hide WritersApart;
    if a.p in s.readers { assert ReaderInv(s, a.p); }
    hide HistoryInv;
    if a.Link? || a.Unlink? { ConsumeStep(s, a); }
    else if a.Open? { OpenStep(s, a.p); }
    else if a.Read? { ReadStep(s, a.p); }
    else if a.CheckAgain? { CheckAgainStep(s, a.p); }
    else { OtherReaderStep(s, a); }
  }

  lemma ConsumeStep(s: State, a: Action)
    requires Enabled(s, a) && (a.Link? || a.Unlink?) && ReaderInv(s, a.p)
    ensures a.p in Apply(s, a).readers && ReaderInv(Apply(s, a), a.p)
  {
    hide Accepted;
  }

  lemma OpenStep(s: State, p: Pid)
    requires Enabled(s, Open(p)) && ReaderInv(s, p)
    ensures p in Apply(s, Open(p)).readers && ReaderInv(Apply(s, Open(p)), p)
  {
  }

  lemma ReadStep(s: State, p: Pid)
    requires Enabled(s, Read(p)) && ReaderInv(s, p)
    ensures p in Apply(s, Read(p)).readers && ReaderInv(Apply(s, Read(p)), p)
  {
  }

  lemma CheckAgainStep(s: State, p: Pid)
    requires Enabled(s, CheckAgain(p)) && ReaderInv(s, p)
    ensures p in Apply(s, CheckAgain(p)).readers && ReaderInv(Apply(s, CheckAgain(p)), p)
  {
  }

  lemma OtherReaderStep(s: State, a: Action)
    requires Enabled(s, a) && !IsWriterAction(a) && (a.p in s.readers ==> ReaderInv(s, a.p))
    requires !a.Link? && !a.Unlink? && !a.Open? && !a.Read? && !a.CheckAgain?
    ensures a.p in Apply(s, a).readers && ReaderInv(Apply(s, a), a.p)
  {
    hide Accepted;
  }

  lemma WritersStep(s: State, a: Action)
    requires Inv(s) && Enabled(s, a)
    ensures WritersApart(Apply(s, a))
    ensures forall p :: p in Apply(s, a).writers ==> WriterInv(Apply(s, a), p)
  {
    hide HistoryInv;
    hide ReaderInv;
    hide Accepted;
    if !IsWriterAction(a) {
      assert Apply(s, a).writers == s.writers && Apply(s, a).inodes == s.inodes;
    } else {
      WriterActionStep(s, a);
    }
  }

  lemma WriterActionStep(s: State, a: Action)
    requires Inv(s) && Enabled(s, a) && IsWriterAction(a)
    ensures WritersApart(Apply(s, a))
    ensures forall p :: p in Apply(s, a).writers ==> WriterInv(Apply(s, a), p)
  {
    hide HistoryInv;
    hide ReaderInv;
    var t := Apply(s, a);
    if a.p in s.writers { assert WriterInv(s, a.p); }
    forall p | p in t.writers ensures WriterInv(t, p) {
      if p != a.p { assert WriterInv(s, p); }
    }
  }

  lemma ExecutionStays(s: State, t: State, e: Execution)
    requires ExecutionInv(s, e) && DirectoryGrows(s, t)
    requires e.reader in t.readers && t.readers[e.reader].initial == s.readers[e.reader].initial
    requires t.readers[e.reader].ran >= s.readers[e.reader].ran
    ensures ExecutionInv(t, e)
  {
    if !t.cleanups {
      var n := s.names[Consumed(e.index)];
      assert Holds(s, n, s.inodes[n].binding);
    }
  }

  /** No step forgets a reader, changes where it started, or takes back a started command. */
  lemma ReadersAdvance(s: State, a: Action, p: Pid)
    requires Enabled(s, a) && p in s.readers
    ensures p in Apply(s, a).readers && Apply(s, a).readers[p].initial == s.readers[p].initial
    ensures Apply(s, a).readers[p].ran == s.readers[p].ran + if a.Execute? && a.p == p then 1 else 0
  {
    hide Apply;
    hide Enabled;
    if IsWriterAction(a) { WriterLeavesReaders(s, a); }
    else if p != a.p { ReaderLeavesOthers(s, a, p); }
    else { OwnReaderAdvances(s, a); }
  }

  lemma OwnReaderAdvances(s: State, a: Action)
    requires Enabled(s, a) && !IsWriterAction(a) && a.p in s.readers
    ensures a.p in Apply(s, a).readers && Apply(s, a).readers[a.p].initial == s.readers[a.p].initial
    ensures Apply(s, a).readers[a.p].ran == s.readers[a.p].ran + if a.Execute? then 1 else 0
  {
    hide Accepted;
  }

  lemma LinkersStep(s: State, a: Action)
    requires Inv(s) && Enabled(s, a)
    ensures forall i :: i in Apply(s, a).linkers <==> Consumed(i) in Apply(s, a).names
  {
    hide ExecutionInv;
    hide ReaderInv;
    hide WriterInv;
    hide WritersApart;
    hide Apply;
    if IsWriterAction(a) { WriterKeepsLinks(s, a); }
    else if a.Link? { LinkAddsOne(s, a.p); }
    else { ReaderKeepsLinks(s, a); }
  }

  lemma WriterKeepsLinks(s: State, a: Action)
    requires Enabled(s, a) && IsWriterAction(a)
    ensures Apply(s, a).linkers == s.linkers
    ensures forall i :: Consumed(i) in Apply(s, a).names <==> Consumed(i) in s.names
  {
  }

  lemma ReaderKeepsLinks(s: State, a: Action)
    requires Enabled(s, a) && !IsWriterAction(a) && !a.Link?
    ensures Apply(s, a).linkers == s.linkers
    ensures forall i :: Consumed(i) in Apply(s, a).names <==> Consumed(i) in s.names
  {
    hide Accepted;
  }

  /** A link that succeeds adds one linker and one consumed name. */
  lemma LinkAddsOne(s: State, p: Pid)
    requires Enabled(s, Link(p))
    ensures var t := Apply(s, Link(p));
      var k := s.readers[p].next;
      || (t.linkers == s.linkers && t.names == s.names)
      || (&& t.linkers.Keys == s.linkers.Keys + {k}
          && forall i :: Consumed(i) in t.names <==> Consumed(i) in s.names || i == k)
  {
  }

  lemma HistoryStep(s: State, a: Action)
    requires Inv(s) && Enabled(s, a) && DirectoryGrows(s, Apply(s, a))
    ensures HistoryInv(Apply(s, a))
  {
    hide DirectoryGrows;
    hide ExecutionInv;
    hide WriterInv;
    hide WritersApart;
    hide ReaderInv;
    var t := Apply(s, a);
    LinkersStep(s, a);
    ExecutionsAre(s, a);
    hide Apply;
    hide Enabled;
    forall e | e in s.executions ensures ExecutionInv(t, e) {
      ReaderOfExecution(s, e);
      ReadersAdvance(s, a, e.reader);
      ExecutionStays(s, t, e);
    }
    if a.Execute? { NewExecution(s, a); }
  }

  lemma ReaderOfExecution(s: State, e: Execution)
    requires ExecutionInv(s, e)
    ensures e.reader in s.readers
  {
  }

  lemma ExecutionsAre(s: State, a: Action)
    requires Enabled(s, a)
    ensures !a.Execute? ==> Apply(s, a).executions == s.executions
    ensures a.Execute? ==>
      Apply(s, a).executions == s.executions + [Started(a.p, s.readers[a.p])]
  {
    hide Accepted;
  }

  lemma NewExecution(s: State, a: Action)
    requires Inv(s) && Enabled(s, a) && a.Execute?
    ensures var r := s.readers[a.p];
      var e := Started(a.p, r);
      && ExecutionInv(Apply(s, a), e)
      && forall i :: 0 <= i < |s.executions| && s.executions[i].reader == a.p ==> s.executions[i].index < r.next
  {
    hide WriterInv;
    hide WritersApart;
    assert ReaderInv(s, a.p);
    forall i | 0 <= i < |s.executions| && s.executions[i].reader == a.p
      ensures s.executions[i].index < s.readers[a.p].next {
      assert s.executions[i] in s.executions;
    }
  }

  lemma Step(s: State, a: Action)
    requires Inv(s) && Enabled(s, a)
    ensures Inv(Apply(s, a))
  {
    hide Apply;
    hide Enabled;
    hide HistoryInv;
    hide WritersApart;
    hide ReaderInv;
    hide WriterInv;
    hide DirectoryGrows;
    var t := Apply(s, a);
    if IsWriterAction(a) { WriterGrows(s, a); } else { ReaderGrows(s, a); }
    WritersStep(s, a);
    HistoryStep(s, a);
    forall p | p in t.readers ensures ReaderInv(t, p) {
      if IsWriterAction(a) {
        WriterLeavesReaders(s, a);
        ReaderUntouched(s, t, p);
      } else if p == a.p {
        OwnReaderStep(s, a);
      } else {
        ReaderLeavesOthers(s, a, p);
        ReaderUntouched(s, t, p);
      }
    }
  }

  lemma {:induction false} RunKeeps(s: State, actions: seq<Action>)
    requires Inv(s) && Legal(s, actions)
    ensures Inv(After(s, actions))
    decreases |actions|
  {
    hide Inv;
    hide Apply;
    hide Enabled;
    if actions != [] {
      Step(s, actions[0]);
      RunKeeps(Apply(s, actions[0]), actions[1..]);
    }
  }

  lemma EveryRun(actions: seq<Action>)
    requires Legal(EMPTY, actions)
    ensures Inv(After(EMPTY, actions))
  {
    hide After;
    hide Legal;
    RunKeeps(EMPTY, actions);
  }

  // ---- what the protocol is for ----

  /** Whatever readers and writers do and wherever they stop, each transition's actuator command is
      started at most once, and only by the reader whose own link created the consumed name. */
  lemma AtMostOneCommandPerTransition(actions: seq<Action>, i: nat, j: nat)
    requires Legal(EMPTY, actions)
    requires i < |After(EMPTY, actions).executions| && j < |After(EMPTY, actions).executions|
    ensures var s := After(EMPTY, actions);
      && s.executions[i].index in s.linkers && s.linkers[s.executions[i].index] == s.executions[i].reader
      && (s.executions[i].index == s.executions[j].index ==> i == j)
      && s.executions[i].ratio in ALLOWED_RATIOS
  {
    hide After;
    hide Legal;
    EveryRun(actions);
    var s := After(EMPTY, actions);
    assert s.executions[i] in s.executions && s.executions[j] in s.executions;
    assert ExecutionInv(s, s.executions[i]) && ExecutionInv(s, s.executions[j]);
  }

  /** The transition indexes a reader ran commands for, in order. */
  function IndexesOf(es: seq<Execution>, p: Pid): seq<nat> {
    if es == [] then []
    else IndexesOf(es[..|es| - 1], p) + if es[|es| - 1].reader == p then [es[|es| - 1].index] else []
  }

  function Consecutive(first: nat, n: nat): seq<nat> { seq(n, k => first + k) }

  ghost predicate ConsecutiveInv(s: State) {
    forall p :: p in s.readers ==>
      IndexesOf(s.executions, p) == Consecutive(s.readers[p].initial, s.readers[p].ran)
  }

  lemma IndexesNext(es: seq<Execution>, e: Execution, p: Pid)
    ensures IndexesOf(es + [e], p) == IndexesOf(es, p) + if e.reader == p then [e.index] else []
  {
    assert (es + [e])[..|es|] == es;
  }

  lemma {:induction false} NoIndexes(es: seq<Execution>, p: Pid)
    requires forall e :: e in es ==> e.reader != p
    ensures IndexesOf(es, p) == []
  {
    if es != [] { NoIndexes(es[..|es| - 1], p); }
  }

  lemma NewReaderRan(s: State, a: Action, p: Pid)
    requires Enabled(s, a) && p in Apply(s, a).readers
    requires p !in s.readers
    ensures !a.Execute? && Apply(s, a).readers[p].ran == 0
  {
    hide Apply;
    hide Enabled;
    if IsWriterAction(a) { WriterLeavesReaders(s, a); }
    else if p != a.p { ReaderLeavesOthers(s, a, p); }
    else { StartsAtZero(s, a); }
  }

  lemma StartsAtZero(s: State, a: Action)
    requires Enabled(s, a) && !IsWriterAction(a) && a.p !in s.readers
    ensures a.StartReader? && a.p in Apply(s, a).readers && Apply(s, a).readers[a.p].ran == 0
  {
  }

  lemma ConsecutiveStep(s: State, a: Action)
    requires Inv(s) && ConsecutiveInv(s) && Enabled(s, a)
    ensures ConsecutiveInv(Apply(s, a))
  {
    hide IndexesOf;
    hide Apply;
    hide Enabled;
    hide ExecutionInv;
    hide WriterInv;
    hide WritersApart;
    var t := Apply(s, a);
    ExecutionsAre(s, a);
    forall p | p in t.readers
      ensures IndexesOf(t.executions, p) == Consecutive(t.readers[p].initial, t.readers[p].ran) {
      if p in s.readers {
        ReadersAdvance(s, a, p);
        if a.Execute? { ExecuteContinues(s, a, p); }
      } else {
        NewReaderRan(s, a, p);
        forall e | e in s.executions ensures e.reader != p { ReaderOfExecution(s, e); }
        NoIndexes(s.executions, p);
      }
    }
  }

  lemma ExecuteContinues(s: State, a: Action, p: Pid)
    requires Inv(s) && ConsecutiveInv(s) && Enabled(s, a) && a.Execute? && p in s.readers
    ensures var ran := s.readers[p].ran + if a.p == p then 1 else 0;
      IndexesOf(Apply(s, a).executions, p) == Consecutive(s.readers[p].initial, ran)
  {
    hide IndexesOf;
    hide HistoryInv;
    hide WriterInv;
    hide WritersApart;
    assert ReaderInv(s, a.p);
    var r := s.readers[a.p];
    var e := Started(a.p, r);
    IndexesNext(s.executions, e, p);
    assert IndexesOf(s.executions, p) == Consecutive(s.readers[p].initial, s.readers[p].ran);
  }

  lemma {:induction false} RunConsecutive(s: State, actions: seq<Action>)
    requires Inv(s) && ConsecutiveInv(s) && Legal(s, actions)
    ensures ConsecutiveInv(After(s, actions))
    decreases |actions|
  {
    hide Inv;
    hide ConsecutiveInv;
    hide Apply;
    hide Enabled;
    if actions != [] {
      Step(s, actions[0]);
      ConsecutiveStep(s, actions[0]);
      RunConsecutive(Apply(s, actions[0]), actions[1..]);
    }
  }

  /** Each reader runs commands for consecutive transitions starting at its initial one. */
  lemma ConsecutiveTransitions(actions: seq<Action>, p: Pid)
    requires Legal(EMPTY, actions) && p in After(EMPTY, actions).readers
    ensures var s := After(EMPTY, actions);
      IndexesOf(s.executions, p) == Consecutive(s.readers[p].initial, s.readers[p].ran)
  {
    hide After;
    hide Legal;
    RunConsecutive(EMPTY, actions);
  }

  // ---- no binding id twice ----

  /** Before the unlink a reader's binding is unused; from then on its id is used, and no command of that
      reader had it. */
  predicate IdInv(s: State, p: Pid)
    requires p in s.readers
  {
    var r := s.readers[p];
    && (r.pc.CheckAgainDue? || r.pc.LinkDue? || r.pc.UnlinkDue? ==> r.pc.binding.id !in r.used)
    && (r.pc.ExecuteDue? ==> r.pc.binding.id in r.used)
    && (forall e :: e in s.executions && e.reader == p ==> e.id in r.used)
    && (r.pc.ExecuteDue? ==> forall e :: e in s.executions && e.reader == p ==> e.id != r.pc.binding.id)
  }

  ghost predicate IdsInv(s: State) {
    && (forall p :: p in s.readers ==> IdInv(s, p))
    && (forall i, j :: 0 <= i < j < |s.executions| && s.executions[i].reader == s.executions[j].reader
          ==> s.executions[i].id != s.executions[j].id)
  }

  lemma OwnIdStep(s: State, a: Action)
    requires Enabled(s, a) && !IsWriterAction(a) && (a.p in s.readers ==> IdInv(s, a.p))
    requires a.p !in s.readers ==> forall e :: e in s.executions ==> e.reader != a.p
    ensures a.p in Apply(s, a).readers && IdInv(Apply(s, a), a.p)
  {
  }

  lemma OtherIdStep(s: State, a: Action, p: Pid)
    requires Enabled(s, a) && p in s.readers && IdInv(s, p) && (IsWriterAction(a) || p != a.p)
    ensures p in Apply(s, a).readers && IdInv(Apply(s, a), p)
  {
    hide Apply;
    ExecutionsAre(s, a);
    if IsWriterAction(a) { WriterLeavesReaders(s, a); } else { ReaderLeavesOthers(s, a, p); }
  }

  lemma IdsStep(s: State, a: Action)
    requires HistoryInv(s) && IdsInv(s) && Enabled(s, a)
    ensures IdsInv(Apply(s, a))
  {
    hide Apply;
    hide Enabled;
    hide IdInv;
    hide ExecutionInv;
    var t := Apply(s, a);
    ExecutionsAre(s, a);
    forall e | e in s.executions ensures e.reader in s.readers { ReaderOfExecution(s, e); }
    forall p | p in t.readers ensures IdInv(t, p) {
      if IsWriterAction(a) {
        WriterLeavesReaders(s, a);
        OtherIdStep(s, a, p);
      } else if p == a.p {
        OwnIdStep(s, a);
      } else {
        ReaderLeavesOthers(s, a, p);
        OtherIdStep(s, a, p);
      }
    }
    if a.Execute? { NewId(s, a); }
  }

  lemma NewId(s: State, a: Action)
    requires IdsInv(s) && Enabled(s, a) && a.Execute?
    ensures forall i :: 0 <= i < |s.executions| && s.executions[i].reader == a.p ==>
      s.executions[i].id != Started(a.p, s.readers[a.p]).id
  {
    assert IdInv(s, a.p);
    forall i | 0 <= i < |s.executions| && s.executions[i].reader == a.p
      ensures s.executions[i].id != s.readers[a.p].pc.binding.id {
      assert s.executions[i] in s.executions;
    }
  }

  lemma {:induction false} RunIds(s: State, actions: seq<Action>)
    requires Inv(s) && IdsInv(s) && Legal(s, actions)
    ensures IdsInv(After(s, actions))
    decreases |actions|
  {
    hide IdsInv;
    hide HistoryInv;
    hide WritersApart;
    hide ReaderInv;
    hide WriterInv;
    hide Apply;
    hide Enabled;
    if actions != [] {
      Step(s, actions[0]);
      IdsStep(s, actions[0]);
      RunIds(Apply(s, actions[0]), actions[1..]);
    }
  }

  /** No reader starts commands for two bindings with the same id. */
  lemma BindingIdsDiffer(actions: seq<Action>, i: nat, j: nat)
    requires Legal(EMPTY, actions) && i < j < |After(EMPTY, actions).executions|
    ensures var es := After(EMPTY, actions).executions;
      es[i].reader == es[j].reader ==> es[i].id != es[j].id
  {
    hide After;
    hide Legal;
    RunIds(EMPTY, actions);
  }

  /** No writer fails after its create. */
  predicate NoCleanups(actions: seq<Action>) { forall a :: a in actions ==> !a.WriterFails? }

  lemma {:induction false} CleanupsAreRecorded(s: State, actions: seq<Action>)
    requires Legal(s, actions) && !s.cleanups && NoCleanups(actions)
    ensures !After(s, actions).cleanups
    decreases |actions|
  {
    hide Apply;
    hide Enabled;
    if actions != [] {
      assert actions[0] in actions;
      CleanupStep(s, actions[0]);
      CleanupsAreRecorded(Apply(s, actions[0]), actions[1..]);
    }
  }

  lemma CleanupStep(s: State, a: Action)
    requires Enabled(s, a) && !a.WriterFails?
    ensures Apply(s, a).cleanups == s.cleanups
  {
    hide Accepted;
  }

  /** As long as no writer fails after its create, every command runs with the ratio of the very
      binding file its reader consumed, which is a binding for that transition. */
  lemma RatioIsTheConsumedBindings(actions: seq<Action>, i: nat)
    requires Legal(EMPTY, actions) && NoCleanups(actions)
    requires i < |After(EMPTY, actions).executions|
    ensures var s := After(EMPTY, actions);
      var e := s.executions[i];
      && Consumed(e.index) in s.names && s.names[Consumed(e.index)] < |s.inodes|
      && s.inodes[s.names[Consumed(e.index)]].Complete?
      && s.inodes[s.names[Consumed(e.index)]].binding.ratio == e.ratio
      && s.inodes[s.names[Consumed(e.index)]].binding.index == e.index
  {
    hide After;
    hide Legal;
    EveryRun(actions);
    CleanupsAreRecorded(EMPTY, actions);
    var s := After(EMPTY, actions);
    assert s.executions[i] in s.executions;
    assert ExecutionInv(s, s.executions[i]);
  }

  // ---- a writer that fails after its create ----

  /** Writer 0 completes a binding for ratio 75 and a reader opens and reads it. */
  function Prepared(): seq<Action> {
    [StartReader(0, 1), StartWriter(0, 1, Binding(1, 75, 0)), StartWriter(1, 1, Binding(1, 25, 1)),
     Create(0), WriteAll(0), Token(0), Check(0), Open(0), Read(0)]
  }

  /** Writer 0's fsync fails and its cleanup removes the name; writer 1 writes a binding for ratio
      25 there; the reader links and removes that one, and runs with 75. */
  function Swapped(): seq<Action> {
    [WriterFails(0), Create(1), WriteAll(1), CheckAgain(0), Link(0), Unlink(0), Execute(0)]
  }

  const READ_DONE := State(
    map[Pending(1) := 0], [Complete(Binding(1, 75, 0))],
    map[0 := Writer(1, Binding(1, 75, 0), Syncing(0)), 1 := Writer(1, Binding(1, 25, 1), CreateDue)],
    map[0 := Reader(1, 1, {}, CheckAgainDue(0, Binding(1, 75, 0)), 0, 2, 0)], map[], [], false,
    [Created(1, 0), Completed(0, Binding(1, 75, 0)), OpenedBy(0, 1, 0)])

  lemma OneStep(s: State, actions: seq<Action>, k: nat, t: State)
    requires k < |actions| && Enabled(s, actions[k]) && Apply(s, actions[k]) == t
    ensures Legal(s, actions[k..]) == Legal(t, actions[k + 1..])
    ensures Legal(s, actions[k..]) ==> After(s, actions[k..]) == After(t, actions[k + 1..])
  {
    hide Apply;
    hide Enabled;
    assert actions[k..][1..] == actions[k + 1..];
  }

  lemma PreparedRun()
    ensures Legal(EMPTY, Prepared()) && After(EMPTY, Prepared()) == READ_DONE
  {
    hide Legal;
    hide After;
    var a := Prepared();
    var s1 := Apply(EMPTY, StartReader(0, 1));
    var s2 := Apply(s1, StartWriter(0, 1, Binding(1, 75, 0)));
    var s3 := Apply(s2, StartWriter(1, 1, Binding(1, 25, 1)));
    var s4 := Apply(s3, Create(0));
    var s5 := Apply(s4, WriteAll(0));
    var s6 := Apply(s5, Token(0));
    var s7 := Apply(s6, Check(0));
    var s8 := Apply(s7, Open(0));
    var s9 := Apply(s8, Read(0));
    Finished(s9);
    assert a[9..] == [];
    OneStep(s8, a, 8, s9);
    OneStep(s7, a, 7, s8);
    OneStep(s6, a, 6, s7);
    OneStep(s5, a, 5, s6);
    OneStep(s4, a, 4, s5);
    OneStep(s3, a, 3, s4);
    OneStep(s2, a, 2, s3);
    OneStep(s1, a, 1, s2);
    OneStep(EMPTY, a, 0, s1);
    assert a[0..] == a;
  }

  lemma Finished(s: State)
    ensures Legal(s, []) && After(s, []) == s
  {
  }

  const REPLACED := State(
    map[Pending(1) := 1], [Complete(Binding(1, 75, 0)), Complete(Binding(1, 25, 1))],
    map[0 := Writer(1, Binding(1, 75, 0), WriterStopped), 1 := Writer(1, Binding(1, 25, 1), Syncing(1))],
    map[0 := Reader(1, 1, {}, CheckAgainDue(0, Binding(1, 75, 0)), 0, 2, 0)], map[], [], true,
    READ_DONE.trace + [Removed(1), Created(1, 1), Completed(1, Binding(1, 25, 1))])

  lemma ReplacedRun()
    ensures Legal(READ_DONE, Swapped()) == Legal(REPLACED, Swapped()[3..])
    ensures Legal(READ_DONE, Swapped()) ==> After(READ_DONE, Swapped()) == After(REPLACED, Swapped()[3..])
  {
    hide Legal;
    hide After;
    var a := Swapped();
    var s1 := Apply(READ_DONE, WriterFails(0));
    var s2 := Apply(s1, Create(1));
    OneStep(s2, a, 2, REPLACED);
    OneStep(s1, a, 1, s2);
    OneStep(READ_DONE, a, 0, s1);
    assert a[0..] == a;
  }

  lemma SwappedRun()
    ensures Legal(READ_DONE, Swapped())
    ensures var s := After(READ_DONE, Swapped());
      && s.executions == [Execution(0, 1, 75, 0, 0, 2, 6)]
      && Consumed(1) in s.names && s.names[Consumed(1)] < |s.inodes|
      && s.inodes[s.names[Consumed(1)]] == Complete(Binding(1, 25, 1))
  {
    hide Legal;
    hide After;
    ReplacedRun();
    var a := Swapped();
    var s4 := Apply(REPLACED, CheckAgain(0));
    var s5 := Apply(s4, Link(0));
    var s6 := Apply(s5, Unlink(0));
    var s7 := Apply(s6, Execute(0));
    Finished(s7);
    assert a[7..] == [];
    OneStep(s6, a, 6, s7);
    OneStep(s5, a, 5, s6);
    OneStep(s4, a, 4, s5);
    OneStep(REPLACED, a, 3, s4);
  }

  lemma {:induction false} RunOn(s: State, first: seq<Action>, more: seq<Action>)
    requires Legal(s, first) && Legal(After(s, first), more)
    ensures Legal(s, first + more) && After(s, first + more) == After(After(s, first), more)
    decreases |first|
  {
    hide Apply;
    hide Enabled;
    if first == [] {
      assert first + more == more;
    } else {
      RunOn(Apply(s, first[0]), first[1..], more);
      assert (first + more)[1..] == first[1..] + more;
    }
  }

  /** Without the assumption on writers the ratio property fails: here a reader runs ratio 75 while
      the binding it consumed says 25. */
  lemma CleanupCanSwapTheBinding()
    ensures Legal(EMPTY, Prepared() + Swapped())
    ensures var s := After(EMPTY, Prepared() + Swapped());
      && s.executions == [Execution(0, 1, 75, 0, 0, 2, 6)]
      && Consumed(1) in s.names && s.names[Consumed(1)] < |s.inodes|
      && s.inodes[s.names[Consumed(1)]] == Complete(Binding(1, 25, 1))
  {
    hide Legal;
    hide After;
    PreparedRun();
    SwappedRun();
    RunOn(EMPTY, Prepared(), Swapped());
  }
}
