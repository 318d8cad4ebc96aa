/** The reader and the binding commands of the composed sequence, as a run of the binding protocol. */
module SequenceBindings {
  import opened Bytes
  import B = BindingRuns
  import Q = SequenceRuns

  /** The reader's process. */
  const READER: B.Pid := 0

  /** The binding written for transition k; the protocol counts from one. */
  function BindingOf(k: nat): B.Binding { B.Binding(k + 1, Q.Planned(k), k) }

  /** The writer of the latest binding. */
  function LatestWriter(s: Q.State): B.Pid { if s.bindingsWritten == 0 then 0 else s.bindingsWritten - 1 }

  // ---- the same state ----

  ghost predicate DirectoryMatches(s: Q.State, b: B.State) {
    && (forall k: nat :: k in s.pending <==> B.Pending(k + 1) in b.names)
    && (forall k: nat :: k in s.consumed <==> B.Consumed(k + 1) in b.names)
    && (forall k: nat :: k in s.pending ==>
          s.pending[k] == Q.Planned(k) && B.Holds(b, b.names[B.Pending(k + 1)], BindingOf(k)))
    && (forall k: nat :: k in s.consumed ==> B.Holds(b, b.names[B.Consumed(k + 1)], BindingOf(k)))
  }

  ghost predicate WritersMatch(s: Q.State, b: B.State) {
    && (forall p :: p in b.writers ==> p < s.bindingsWritten)
    && (s.bind.BindWritten? ==>
          && s.bindingsWritten > 0 && LatestWriter(s) in b.writers
          && b.writers[LatestWriter(s)].slot == s.bind.k + 1 && b.writers[LatestWriter(s)].pc.Syncing?)
  }

  /** Past the unlink, or stopped. */
  predicate Done(r: Q.Reader) { r.ExecuteDue? || r.Executing? || r.ReaderStopped? }

  ghost predicate ReaderMatches(s: Q.State, b: B.State) {
    && READER in b.readers
    && var r := b.readers[READER];
       && r.initial == 1 && r.next == s.next + 1
       && (forall id :: id in r.used ==> id < s.next || (id == s.next && Done(s.reader)))
       && match s.reader
          case Idle => r.pc == B.TokenDue
          case LoadDue => r.pc == B.CheckDue
          case LinkDue(ratio) => r.pc.CheckAgainDue? && r.pc.binding == BindingOf(s.next) && r.pc.binding.ratio == ratio
          case UnlinkDue(ratio) =>
            r.pc.UnlinkDue? && r.pc.binding == BindingOf(s.next) && r.pc.binding.ratio == ratio && s.next in s.pending
          case ExecuteDue(ratio) => r.pc.ExecuteDue? && r.pc.binding == BindingOf(s.next) && r.pc.binding.ratio == ratio
          case Executing => r.pc == B.Running
          case ReaderStopped(_) => r.pc == B.ReaderStopped
  }

  ghost predicate CommandsMatch(s: Q.State, b: B.State) {
    && |b.executions| == |s.executed|
    && forall i: nat :: i < |s.executed| ==>
         b.executions[i].reader == READER && b.executions[i].index == i + 1 && b.executions[i].ratio == s.executed[i]
  }

  ghost predicate Matches(s: Q.State, b: B.State) {
    DirectoryMatches(s, b) && WritersMatch(s, b) && ReaderMatches(s, b) && CommandsMatch(s, b)
  }

  // ---- the same steps ----

  /** The file operations behind a step of the composed sequence. */
  function Steps(s: Q.State, a: Q.Action): seq<B.Action>
    requires Q.Enabled(s, a)
  {
    match a
    case WriteBinding =>
      var w, k := s.bindingsWritten, s.bind.k;
      if k in s.pending then [] else [B.StartWriter(w, k + 1, BindingOf(k)), B.Create(w), B.WriteAll(w)]
    case BindReturns => [B.Sync(LatestWriter(s))]
    case BindCleansUp => if s.bind.BindWritten? then [B.WriterFails(LatestWriter(s))] else []
    case ReadToken => [B.Token(READER)]
    case Load =>
      if s.next in s.consumed then [B.Check(READER)]
      else if s.next !in s.pending then [B.Check(READER), B.Open(READER)]
      else [B.Check(READER), B.Open(READER), B.Read(READER)]
    case Link => if s.next in s.consumed then [B.CheckAgain(READER)] else [B.CheckAgain(READER), B.Link(READER)]
    case Unlink => [B.Unlink(READER)]
    case Execute => [B.Execute(READER)]
    case CommandReturns => [B.ActuatorReturns(READER)]
    case ReaderStops => [B.ReaderStops(READER)]
    case _ => []
  }

  ghost predicate Simulates(s: Q.State, a: Q.Action, b: B.State)
    requires Q.Enabled(s, a)
  {
    B.Legal(b, Steps(s, a)) && Matches(Q.Apply(s, a), B.After(b, Steps(s, a)))
  }

  lemma NoStep(b: B.State)
    ensures B.Legal(b, []) && B.After(b, []) == b
  {
  }

  lemma OneStep(b: B.State, x: B.Action)
    requires B.Enabled(b, x)
    ensures B.Legal(b, [x]) && B.After(b, [x]) == B.Apply(b, x)
  {
    hide B.Apply;
    hide B.Enabled;
    assert [x][1..] == [];
    NoStep(B.Apply(b, x));
  }

  lemma TwoSteps(b: B.State, x: B.Action, y: B.Action)
    requires B.Enabled(b, x) && B.Enabled(B.Apply(b, x), y)
    ensures B.Legal(b, [x, y]) && B.After(b, [x, y]) == B.Apply(B.Apply(b, x), y)
  {
    hide B.Apply;
    hide B.Enabled;
    assert [x, y][1..] == [y];
    OneStep(B.Apply(b, x), y);
  }

  lemma ThreeSteps(b: B.State, x: B.Action, y: B.Action, z: B.Action)
    requires B.Enabled(b, x) && B.Enabled(B.Apply(b, x), y) && B.Enabled(B.Apply(B.Apply(b, x), y), z)
    ensures B.Legal(b, [x, y, z]) && B.After(b, [x, y, z]) == B.Apply(B.Apply(B.Apply(b, x), y), z)
  {
    hide B.Apply;
    hide B.Enabled;
    assert [x, y, z][1..] == [y, z];
    TwoSteps(B.Apply(b, x), y, z);
  }

  // ---- the binding commands ----

  /** A step of a command leaves the reader alone. */
  lemma ReaderUntouched(s: Q.State, t: Q.State, b: B.State, c: B.State)
    requires ReaderMatches(s, b) && CommandsMatch(s, b)
    requires t.reader == s.reader && t.next == s.next && t.executed == s.executed
    requires c.readers == b.readers && c.executions == b.executions
    requires s.reader.UnlinkDue? ==> s.next in t.pending
    ensures ReaderMatches(t, c) && CommandsMatch(t, c)
  {
    hide Q.Planned;
  }

  /** The three file operations of a binding that is written. */
  lemma WriteEffect(b: B.State, w: B.Pid, k: nat) returns (c: B.State)
    requires w !in b.writers && B.Pending(k + 1) !in b.names
    ensures var xs := [B.StartWriter(w, k + 1, BindingOf(k)), B.Create(w), B.WriteAll(w)];
      B.Legal(b, xs) && B.After(b, xs) == c
    ensures c.names == b.names[B.Pending(k + 1) := |b.inodes|]
    ensures c.inodes == b.inodes + [B.Complete(BindingOf(k))]
    ensures c.writers == b.writers[w := B.Writer(k + 1, BindingOf(k), B.Syncing(|b.inodes|))]
    ensures c.readers == b.readers && c.executions == b.executions
  {
    hide Q.Planned;
    hide B.Legal;
    hide B.After;
    var b1 := B.Apply(b, B.StartWriter(w, k + 1, BindingOf(k)));
    var b2 := B.Apply(b1, B.Create(w));
    c := B.Apply(b2, B.WriteAll(w));
    ThreeSteps(b, B.StartWriter(w, k + 1, BindingOf(k)), B.Create(w), B.WriteAll(w));
  }

  /** Complete files stay complete when files are added. */
  lemma WrittenMatches(s: Q.State, t: Q.State, b: B.State, c: B.State, k: nat)
    requires DirectoryMatches(s, b) && k !in s.pending
    requires t.pending == s.pending[k := Q.Planned(k)] && t.consumed == s.consumed
    requires c.names == b.names[B.Pending(k + 1) := |b.inodes|]
    requires c.inodes == b.inodes + [B.Complete(BindingOf(k))]
    ensures DirectoryMatches(t, c)
  {
    hide Q.Planned;
    forall n: nat, x | B.Holds(b, n, x) ensures B.Holds(c, n, x) { }
  }

  lemma WriteSimulates(s: Q.State, b: B.State)
    requires Q.Enabled(s, Q.WriteBinding) && Matches(s, b)
    ensures Simulates(s, Q.WriteBinding, b)
  {
    hide B.Legal;
    hide B.After;
    hide Q.Planned;
    hide DirectoryMatches;
    hide ReaderMatches;
    hide CommandsMatch;
    hide BindingOf;
    var w, k := s.bindingsWritten, s.bind.k;
    var t := Q.Apply(s, Q.WriteBinding);
    PendingMatches(s, b, k);
    if k in s.pending {
      NoStep(b);
      DirectoryKept(s, t, b);
      KeepsUnlinking(s, b);
      ReaderUntouched(s, t, b, b);
    } else {
      var c := WriteEffect(b, w, k);
      WrittenMatches(s, t, b, c, k);
      KeepsUnlinking(s, b);
      ReaderUntouched(s, t, b, c);
    }
  }

  lemma PendingMatches(s: Q.State, b: B.State, k: nat)
    requires DirectoryMatches(s, b)
    ensures k in s.pending <==> B.Pending(k + 1) in b.names
    ensures k in s.consumed <==> B.Consumed(k + 1) in b.names
  {
  }

  lemma KeepsUnlinking(s: Q.State, b: B.State)
    requires ReaderMatches(s, b)
    ensures s.reader.UnlinkDue? ==> s.next in s.pending
  {
  }

  lemma DirectoryKept(s: Q.State, t: Q.State, b: B.State)
    requires DirectoryMatches(s, b) && t.pending == s.pending && t.consumed == s.consumed
    ensures DirectoryMatches(t, b)
  {
  }

  /** A name that goes. */
  lemma RemovedMatches(s: Q.State, t: Q.State, b: B.State, c: B.State, k: nat)
    requires DirectoryMatches(s, b)
    requires t.pending == s.pending - {k} && t.consumed == s.consumed
    requires c.names == b.names - {B.Pending(k + 1)} && c.inodes == b.inodes
    ensures DirectoryMatches(t, c)
  {
    hide Q.Planned;
  }

  lemma CleanupSimulates(s: Q.State, b: B.State)
    requires Q.Inv(s) && Q.Enabled(s, Q.BindCleansUp) && Matches(s, b)
    ensures Simulates(s, Q.BindCleansUp, b)
  {
    hide Q.Inv;
    hide B.Legal;
    hide B.After;
    hide Q.Planned;
    hide DirectoryMatches;
    hide ReaderMatches;
    hide CommandsMatch;
    var t := Q.Apply(s, Q.BindCleansUp);
    KeepsUnlinking(s, b);
    if s.bind.BindWritten? {
      CleanupIsAhead(s);
      var c := B.Apply(b, B.WriterFails(LatestWriter(s)));
      OneStep(b, B.WriterFails(LatestWriter(s)));
      RemovedMatches(s, t, b, c, s.bind.k);
      ReaderUntouched(s, t, b, c);
    } else {
      NoStep(b);
      DirectoryKept(s, t, b);
      ReaderUntouched(s, t, b, b);
    }
  }

  /** A cleanup never meets the transition the reader works on. */
  lemma CleanupIsAhead(s: Q.State)
    requires Q.Inv(s) && s.bind.BindWritten?
    ensures s.reader.UnlinkDue? ==> s.bind.k != s.next
  {
    hide Q.Planned;
  }

  lemma ReturnSimulates(s: Q.State, b: B.State)
    requires Q.Enabled(s, Q.BindReturns) && Matches(s, b)
    ensures Simulates(s, Q.BindReturns, b)
  {
    hide B.Legal;
    hide B.After;
    hide Q.Planned;
    OneStep(b, B.Sync(LatestWriter(s)));
  }

  lemma QuietFrame(s: Q.State, a: Q.Action)
    requires Q.Enabled(s, a) && !Q.IsReaderAction(a)
    requires !a.WriteBinding? && !a.BindCleansUp? && !a.BindReturns?
    ensures Steps(s, a) == []
    ensures var t := Q.Apply(s, a);
      && t.pending == s.pending && t.consumed == s.consumed && t.reader == s.reader && t.next == s.next
      && t.executed == s.executed && t.bindingsWritten == s.bindingsWritten
      && (t.bind.BindWritten? ==> t.bind == s.bind)
  {
    hide Q.Planned;
  }

  /** The other steps of supervisor, commands and trigger touch neither directory nor reader. */
  lemma QuietSimulates(s: Q.State, a: Q.Action, b: B.State)
    requires Q.Enabled(s, a) && Matches(s, b) && !Q.IsReaderAction(a)
    requires !a.WriteBinding? && !a.BindCleansUp? && !a.BindReturns?
    ensures Simulates(s, a, b)
  {
    hide Q.Apply;
    hide Q.Enabled;
    hide Steps;
    hide DirectoryMatches;
    hide ReaderMatches;
    hide CommandsMatch;
    var t := Q.Apply(s, a);
    QuietFrame(s, a);
    NoStep(b);
    KeepsUnlinking(s, b);
    DirectoryKept(s, t, b);
    ReaderUntouched(s, t, b, b);
  }

  // ---- the reader ----

  /** What a step of the reader leaves alone, on both sides. */
  ghost predicate ReaderOnly(s: Q.State, t: Q.State, b: B.State, c: B.State) {
    && t.bind == s.bind && t.bindingsWritten == s.bindingsWritten && t.pending == s.pending && t.consumed == s.consumed
    && c.writers == b.writers && c.names == b.names && c.inodes == b.inodes
  }

  lemma OnlyReader(s: Q.State, t: Q.State, b: B.State, c: B.State)
    requires Matches(s, b) && ReaderOnly(s, t, b, c) && ReaderMatches(t, c) && CommandsMatch(t, c)
    ensures Matches(t, c)
  {
    hide Q.Planned;
    hide ReaderMatches;
    hide CommandsMatch;
  }

  lemma TokenSimulates(s: Q.State, b: B.State)
    requires Q.Enabled(s, Q.ReadToken) && Matches(s, b)
    ensures Simulates(s, Q.ReadToken, b)
  {
    hide B.Legal;
    hide B.After;
    hide Q.Planned;
    hide DirectoryMatches;
    hide WritersMatch;
    OneStep(b, B.Token(READER));
    OnlyReader(s, Q.Apply(s, Q.ReadToken), b, B.Apply(b, B.Token(READER)));
  }

  lemma ReturnsSimulates(s: Q.State, b: B.State)
    requires Q.Enabled(s, Q.CommandReturns) && Matches(s, b)
    ensures Simulates(s, Q.CommandReturns, b)
  {
    hide B.Legal;
    hide B.After;
    hide Q.Planned;
    hide DirectoryMatches;
    hide WritersMatch;
    OneStep(b, B.ActuatorReturns(READER));
    OnlyReader(s, Q.Apply(s, Q.CommandReturns), b, B.Apply(b, B.ActuatorReturns(READER)));
  }

  lemma StopSimulates(s: Q.State, b: B.State)
    requires Q.Enabled(s, Q.ReaderStops) && Matches(s, b)
    ensures Simulates(s, Q.ReaderStops, b)
  {
    hide B.Legal;
    hide B.After;
    hide Q.Planned;
    hide DirectoryMatches;
    hide WritersMatch;
    OneStep(b, B.ReaderStops(READER));
    OnlyReader(s, Q.Apply(s, Q.ReaderStops), b, B.Apply(b, B.ReaderStops(READER)));
  }

  lemma ExecuteSimulates(s: Q.State, b: B.State)
    requires Q.ReaderInv(s) && Q.Enabled(s, Q.Execute) && Matches(s, b)
    ensures Simulates(s, Q.Execute, b)
  {
    hide B.Legal;
    hide B.After;
    hide Q.Planned;
    hide DirectoryMatches;
    hide WritersMatch;
    OneStep(b, B.Execute(READER));
    OnlyReader(s, Q.Apply(s, Q.Execute), b, B.Apply(b, B.Execute(READER)));
  }

  /** The file the reader opens is a binding it accepts. */
  lemma LoadFinds(s: Q.State, b: B.State)
    requires Q.ReaderInv(s) && DirectoryMatches(s, b) && ReaderMatches(s, b) && s.reader.LoadDue?
    ensures s.next in s.consumed <==> B.Consumed(s.next + 1) in b.names
    ensures s.next in s.pending <==> B.Pending(s.next + 1) in b.names
    ensures s.next in s.pending ==>
      && s.pending[s.next] == BindingOf(s.next).ratio
      && B.Holds(b, b.names[B.Pending(s.next + 1)], BindingOf(s.next))
      && B.Accepted(b.readers[READER], BindingOf(s.next))
  {
  }

  lemma LoadSimulates(s: Q.State, b: B.State)
    requires Q.ReaderInv(s) && Q.Enabled(s, Q.Load) && Matches(s, b)
    ensures Simulates(s, Q.Load, b)
  {
    hide Matches;
    hide Simulates;
    hide Q.ReaderInv;
    if s.next !in s.consumed && s.next in s.pending { LoadTaken(s, b); } else { LoadRefused(s, b); }
  }

  lemma LoadTaken(s: Q.State, b: B.State)
    requires Q.ReaderInv(s) && Q.Enabled(s, Q.Load) && Matches(s, b) && s.next !in s.consumed && s.next in s.pending
    ensures Simulates(s, Q.Load, b)
  {
    hide B.Legal;
    hide B.After;
    hide B.Accepted;
    hide Q.ReaderInv;
    hide BindingOf;
    hide DirectoryMatches;
    hide WritersMatch;
    LoadFinds(s, b);
    LoadEffect(s, b);
    OnlyReader(s, Q.Apply(s, Q.Load), b, B.After(b, [B.Check(READER), B.Open(READER), B.Read(READER)]));
  }

  lemma LoadRefused(s: Q.State, b: B.State)
    requires Q.Enabled(s, Q.Load) && Matches(s, b) && (s.next in s.consumed || s.next !in s.pending)
    ensures Simulates(s, Q.Load, b)
  {
    hide B.Legal;
    hide B.After;
    hide BindingOf;
    hide DirectoryMatches;
    hide WritersMatch;
    PendingMatches(s, b, s.next);
    var t, b1 := Q.Apply(s, Q.Load), B.Apply(b, B.Check(READER));
    if s.next in s.consumed {
      OneStep(b, B.Check(READER));
      OnlyReader(s, t, b, b1);
    } else {
      TwoSteps(b, B.Check(READER), B.Open(READER));
      OnlyReader(s, t, b, B.Apply(b1, B.Open(READER)));
    }
  }

  /** Check, open and read of a binding that is there. */
  lemma LoadEffect(s: Q.State, b: B.State)
    requires Matches(s, b) && s.reader.LoadDue?
    requires B.Consumed(s.next + 1) !in b.names && B.Pending(s.next + 1) in b.names
    requires B.Holds(b, b.names[B.Pending(s.next + 1)], BindingOf(s.next))
    requires B.Accepted(b.readers[READER], BindingOf(s.next))
    ensures var xs := [B.Check(READER), B.Open(READER), B.Read(READER)];
      && B.Legal(b, xs)
      && var c := B.After(b, xs);
         && c.writers == b.writers && c.names == b.names && c.inodes == b.inodes && c.executions == b.executions
         && READER in c.readers
         && c.readers[READER] == b.readers[READER].(
              pc := B.CheckAgainDue(b.names[B.Pending(s.next + 1)], BindingOf(s.next)),
              openedAt := c.readers[READER].openedAt)
  {
    hide B.Legal;
    hide B.After;
    hide BindingOf;
    hide DirectoryMatches;
    hide WritersMatch;
    hide CommandsMatch;
    var b1 := B.Apply(b, B.Check(READER));
    var b2 := B.Apply(b1, B.Open(READER));
    ThreeSteps(b, B.Check(READER), B.Open(READER), B.Read(READER));
  }

  /** A link gives the pending binding its second name. */
  lemma LinkedMatches(s: Q.State, t: Q.State, b: B.State, c: B.State, k: nat)
    requires DirectoryMatches(s, b) && k in s.pending
    requires t.pending == s.pending && t.consumed == s.consumed + {k} && c.inodes == b.inodes
    requires B.Pending(k + 1) in b.names && c.names == b.names[B.Consumed(k + 1) := b.names[B.Pending(k + 1)]]
    ensures DirectoryMatches(t, c)
  {
    hide Q.Planned;
  }

  lemma WritersKept(s: Q.State, t: Q.State, b: B.State, c: B.State)
    requires WritersMatch(s, b) && t.bind == s.bind && t.bindingsWritten == s.bindingsWritten && c.writers == b.writers
    ensures WritersMatch(t, c)
  {
  }

  lemma LinkSimulates(s: Q.State, b: B.State)
    requires Q.Enabled(s, Q.Link) && Matches(s, b)
    ensures Simulates(s, Q.Link, b)
  {
    hide Matches;
    hide Simulates;
    hide Q.Planned;
    if s.next !in s.consumed && s.next in s.pending { LinkTaken(s, b); } else { LinkRefused(s, b); }
  }

  lemma LinkTaken(s: Q.State, b: B.State)
    requires Q.Enabled(s, Q.Link) && Matches(s, b) && s.next !in s.consumed && s.next in s.pending
    ensures Simulates(s, Q.Link, b)
  {
    hide B.Legal;
    hide B.After;
    hide Q.Planned;
    hide DirectoryMatches;
    hide WritersMatch;
    PendingMatches(s, b, s.next);
    var t, c := Q.Apply(s, Q.Link), B.Apply(B.Apply(b, B.CheckAgain(READER)), B.Link(READER));
    TwoSteps(b, B.CheckAgain(READER), B.Link(READER));
    LinkedMatches(s, t, b, c, s.next);
    WritersKept(s, t, b, c);
  }

  lemma LinkRefused(s: Q.State, b: B.State)
    requires Q.Enabled(s, Q.Link) && Matches(s, b) && (s.next in s.consumed || s.next !in s.pending)
    ensures Simulates(s, Q.Link, b)
  {
    hide B.Legal;
    hide B.After;
    hide Q.Planned;
    hide DirectoryMatches;
    hide WritersMatch;
    PendingMatches(s, b, s.next);
    var t, b1 := Q.Apply(s, Q.Link), B.Apply(b, B.CheckAgain(READER));
    if s.next in s.consumed {
      OneStep(b, B.CheckAgain(READER));
      OnlyReader(s, t, b, b1);
    } else {
      TwoSteps(b, B.CheckAgain(READER), B.Link(READER));
      OnlyReader(s, t, b, B.Apply(b1, B.Link(READER)));
    }
  }

  lemma UnlinkSimulates(s: Q.State, b: B.State)
    requires Q.Enabled(s, Q.Unlink) && Matches(s, b)
    ensures Simulates(s, Q.Unlink, b)
  {
    hide B.Legal;
    hide B.After;
    hide Q.Planned;
    hide DirectoryMatches;
    hide WritersMatch;
    PendingMatches(s, b, s.next);
    var t, c := Q.Apply(s, Q.Unlink), B.Apply(b, B.Unlink(READER));
    OneStep(b, B.Unlink(READER));
    RemovedMatches(s, t, b, c, s.next);
    WritersKept(s, t, b, c);
  }

  // ---- every run ----

  lemma StepSimulates(s: Q.State, a: Q.Action, b: B.State)
    requires Q.Inv(s) && Q.Enabled(s, a) && Matches(s, b)
    ensures Simulates(s, a, b)
  {
    hide Q.Enabled;
    hide Q.SupervisorInv;
    hide Q.CommandInv;
    hide Q.ReaderInv;
    hide Matches;
    hide Simulates;
    match a
    case WriteBinding => WriteSimulates(s, b);
    case BindCleansUp => CleanupSimulates(s, b);
    case BindReturns => ReturnSimulates(s, b);
    case ReadToken => TokenSimulates(s, b);
    case Load => LoadSimulates(s, b);
    case Link => LinkSimulates(s, b);
    case Unlink => UnlinkSimulates(s, b);
    case Execute => ExecuteSimulates(s, b);
    case CommandReturns => ReturnsSimulates(s, b);
    case ReaderStops => StopSimulates(s, b);
    case _ => QuietSimulates(s, a, b);
  }

  lemma {:induction false} RunSimulates(s: Q.State, b: B.State, actions: seq<Q.Action>) returns (xs: seq<B.Action>)
    requires Q.Inv(s) && Matches(s, b) && Q.Legal(s, actions)
    ensures B.Legal(b, xs) && Matches(Q.After(s, actions), B.After(b, xs))
    decreases |actions|
  {
    hide Q.Inv;
    hide Q.Apply;
    hide Q.Enabled;
    hide Matches;
    hide Steps;
    hide B.Legal;
    hide B.After;
    if actions == [] {
      xs := [];
      NoStep(b);
    } else {
      var a := actions[0];
      StepSimulates(s, a, b);
      Q.Step(s, a);
      var c := B.After(b, Steps(s, a));
      var rest := RunSimulates(Q.Apply(s, a), c, actions[1..]);
      B.RunOn(b, Steps(s, a), rest);
      xs := Steps(s, a) + rest;
    }
  }

  lemma StartMatches()
    ensures B.Enabled(B.EMPTY, B.StartReader(READER, 1))
    ensures Matches(Q.START, B.Apply(B.EMPTY, B.StartReader(READER, 1)))
  {
    hide Q.Planned;
  }

  /** Every run of the composed sequence is a run of the binding protocol: there are file operations,
      of one reader and one writer for each binding, that leave the same names, the same place of the
      reader and the same commands. */
  lemma SequenceIsABindingRun(actions: seq<Q.Action>) returns (xs: seq<B.Action>)
    requires Q.Legal(Q.START, actions)
    ensures B.Legal(B.EMPTY, xs) && Matches(Q.After(Q.START, actions), B.After(B.EMPTY, xs))
  {
    hide Q.Legal;
    hide Q.After;
    hide Q.Inv;
    hide Matches;
    hide B.Legal;
    hide B.After;
    hide B.Apply;
    hide B.Enabled;
    Q.StartInv();
    StartMatches();
    var first := B.StartReader(READER, 1);
    OneStep(B.EMPTY, first);
    var rest := RunSimulates(Q.START, B.Apply(B.EMPTY, first), actions);
    B.RunOn(B.EMPTY, [first], rest);
    xs := [first] + rest;
  }

  /** So what holds of every run of the protocol holds here, and more: although a binding command may
      clean up, the binding consumed for each command has the ratio that was run. */
  lemma SequenceNeverSwaps(actions: seq<Q.Action>) returns (xs: seq<B.Action>)
    requires Q.Legal(Q.START, actions)
    ensures B.Legal(B.EMPTY, xs)
    ensures var s, b := Q.After(Q.START, actions), B.After(B.EMPTY, xs);
      && CommandsMatch(s, b)
      && forall i: nat :: i < |b.executions| ==>
           var e := b.executions[i];
           B.Consumed(e.index) in b.names && B.Holds(b, b.names[B.Consumed(e.index)], B.Binding(i + 1, e.ratio, i))
  {
    hide Q.Legal;
    hide Q.After;
    hide Q.Planned;
    hide B.Legal;
    hide B.After;
    hide WritersMatch;
    hide ReaderMatches;
    hide Q.Inv;
    xs := SequenceIsABindingRun(actions);
    var s, b := Q.After(Q.START, actions), B.After(B.EMPTY, xs);
    CommandsAreConsumed(actions);
    forall i: nat | i < |b.executions|
      ensures var e := b.executions[i];
        B.Consumed(e.index) in b.names && B.Holds(b, b.names[B.Consumed(e.index)], B.Binding(i + 1, e.ratio, i))
    {
      assert i in s.consumed && s.executed[i] == Q.Planned(i);
      assert B.Holds(b, b.names[B.Consumed(i + 1)], BindingOf(i));
    }
  }

  lemma CommandsAreConsumed(actions: seq<Q.Action>)
    requires Q.Legal(Q.START, actions)
    ensures var s := Q.After(Q.START, actions);
      forall i: nat :: i < |s.executed| ==> i in s.consumed && s.executed[i] == Q.Planned(i)
  {
    hide Q.Legal;
    hide Q.After;
    hide Q.Planned;
    hide Q.SupervisorInv;
    hide Q.CommandInv;
    Q.StartInv();
    Q.RunKeeps(Q.START, actions);
  }
}
