/** When the ratio a reader runs is the consumed binding's: what happened to the slot between the
    reader's open and its link decides it. */
module BindingSwaps {
  import opened BindingRuns

  // ---- what the trace says about a slot ----

  /** Before moment l, the last file created at slot i was n, at moment c. */
  ghost predicate LastCreated(trace: seq<Event>, l: nat, i: nat, n: Inode, c: nat) {
    && c < l <= |trace| && trace[c] == Created(i, n)
    && (forall k :: c < k < l ==> !(trace[k].Created? && trace[k].slot == i))
  }

  ghost predicate CreatedLast(trace: seq<Event>, l: nat, i: nat, n: Inode) {
    exists c: nat :: LastCreated(trace, l, i, n, c)
  }

  /** Slot i's name was removed after q and file n is what was created there last before l, later. */
  ghost predicate Replaced(trace: seq<Event>, q: nat, l: nat, i: nat, n: Inode) {
    exists f: nat, c: nat :: q < f < c && LastCreated(trace, l, i, n, c) && trace[f] == Removed(i)
  }

  ghost predicate RemovedSince(trace: seq<Event>, q: nat, i: nat) {
    exists f: nat :: q < f < |trace| && trace[f] == Removed(i)
  }

  ghost predicate CompletedAs(trace: seq<Event>, n: Inode, b: Binding) {
    exists d: nat :: d < |trace| && trace[d] == Completed(n, b)
  }

  // ---- what one step does to the slots ----

  /** At most one event is added; a consumed name stays; a pending name changes only by a recorded
      create, a recorded removal, or an unlink after the link. */
  ghost predicate SlotsFollow(s: State, t: State) {
    && |s.trace| <= |t.trace| <= |s.trace| + 1 && t.trace[..|s.trace|] == s.trace
    && |s.inodes| <= |t.inodes|
    && (forall i: nat :: Consumed(i) in s.names ==>
          Consumed(i) in t.names && t.names[Consumed(i)] == s.names[Consumed(i)])
    && (forall i: nat :: Pending(i) in t.names ==>
          if Pending(i) in s.names then t.names[Pending(i)] == s.names[Pending(i)] && !NewCreate(s, t, i)
          else |t.trace| > |s.trace| && t.trace[|s.trace|] == Created(i, t.names[Pending(i)]))
    && (forall i: nat :: Pending(i) in s.names && Pending(i) !in t.names ==>
          Consumed(i) in t.names || (|t.trace| > |s.trace| && t.trace[|s.trace|] == Removed(i)))
  }

  predicate NewCreate(s: State, t: State, i: nat) {
    |t.trace| > |s.trace| && t.trace[|s.trace|].Created? && t.trace[|s.trace|].slot == i
  }

  lemma WriterSlots(s: State, a: Action)
    requires Enabled(s, a) && IsWriterAction(a)
    ensures SlotsFollow(s, Apply(s, a))
  {
  }

  lemma ReaderSlots(s: State, a: Action)
    requires Inv(s) && Enabled(s, a) && !IsWriterAction(a)
    ensures SlotsFollow(s, Apply(s, a))
  {
    hide ExecutionInv;
    hide WriterInv;
    hide WritersApart;
    hide Accepted;
    if a.Unlink? {
      assert ReaderInv(s, a.p);
      hide HistoryInv;
      UnlinkSlots(s, a.p);
    } else {
      NameKeepingSlots(s, a);
    }
    hide SlotsFollow;
    hide Apply;
  }

  lemma UnlinkSlots(s: State, p: Pid)
    requires Enabled(s, Unlink(p)) && Consumed(s.readers[p].next) in s.names
    ensures SlotsFollow(s, Apply(s, Unlink(p)))
  {
  }

  lemma NameKeepingSlots(s: State, a: Action)
    requires Enabled(s, a) && !IsWriterAction(a) && !a.Unlink?
    ensures SlotsFollow(s, Apply(s, a))
  {
    hide Accepted;
  }

  // ---- the files ----

  ghost predicate NamesHaveFiles(s: State) {
    && (forall n :: n in s.names ==> s.names[n] < |s.inodes|)
    && (forall k: nat :: k < |s.trace| && s.trace[k].Created? ==> s.trace[k].inode < |s.inodes|)
  }

  /** A file is complete exactly when the trace says so, with that binding. */
  ghost predicate CompletionsAre(s: State) {
    && (forall k: nat :: k < |s.trace| && s.trace[k].Completed? ==> Holds(s, s.trace[k].inode, s.trace[k].binding))
    && (forall n: nat, b :: Holds(s, n, b) ==> CompletedAs(s.trace, n, b))
  }

  /** A file is completed after it was created. */
  ghost predicate CreatedFirst(s: State) {
    forall c: nat, d: nat ::
      (&& c < |s.trace| && d < |s.trace| && s.trace[c].Created? && s.trace[d].Completed?
       && s.trace[c].inode == s.trace[d].inode)
      ==> c < d
  }

  ghost predicate SlotsCreated(s: State) {
    forall i: nat :: Pending(i) in s.names ==> CreatedLast(s.trace, |s.trace|, i, s.names[Pending(i)])
  }

  ghost predicate FilesInv(s: State) { NamesHaveFiles(s) && CompletionsAre(s) && CreatedFirst(s) && SlotsCreated(s) }

  // ---- readers and their commands ----

  /** A reader that opened and has not linked: unless its transition is consumed, the slot holds the
      file it opened, or one created after a removal since, or nothing after such a removal. */
  ghost predicate Unlinked(s: State, p: Pid, r: Reader, n: Inode) {
    && r.openedAt < |s.trace| && s.trace[r.openedAt] == OpenedBy(p, r.next, n)
    && (|| Consumed(r.next) in s.names
        || if Pending(r.next) in s.names then
             s.names[Pending(r.next)] == n
             || Replaced(s.trace, r.openedAt, |s.trace|, r.next, s.names[Pending(r.next)])
           else RemovedSince(s.trace, r.openedAt, r.next))
  }

  /** Once linked: the consumed name's file is the slot's file of that moment. */
  ghost predicate LinkedAs(s: State, p: Pid, i: nat, n: Inode, q: nat, l: nat) {
    && q < l < |s.trace| && s.trace[q] == OpenedBy(p, i, n) && Consumed(i) in s.names
    && s.trace[l] == LinkedBy(p, i, s.names[Consumed(i)])
    && CreatedLast(s.trace, l, i, s.names[Consumed(i)])
    && (s.names[Consumed(i)] == n || Replaced(s.trace, q, l, i, s.names[Consumed(i)]))
  }

  ghost predicate ReaderTraced(s: State, p: Pid)
    requires p in s.readers
  {
    var r := s.readers[p];
    match r.pc
    case ReadDue(n) => Unlinked(s, p, r, n)
    case CheckAgainDue(n, _) => Unlinked(s, p, r, n)
    case LinkDue(n, _) => Unlinked(s, p, r, n)
    case UnlinkDue(n, _) => LinkedAs(s, p, r.next, n, r.openedAt, r.linkedAt)
    case ExecuteDue(n, _) => LinkedAs(s, p, r.next, n, r.openedAt, r.linkedAt)
    case _ => true
  }

  /** The file that was read has the ratio that was run. */
  ghost predicate CommandTraced(s: State, e: Execution) {
    && LinkedAs(s, e.reader, e.index, e.read, e.openedAt, e.linkedAt)
    && e.read < |s.inodes| && s.inodes[e.read].Complete? && s.inodes[e.read].binding.ratio == e.ratio
  }

  ghost predicate ReadersTraced(s: State) { forall p :: p in s.readers ==> ReaderTraced(s, p) }

  ghost predicate CommandsTraced(s: State) { forall e :: e in s.executions ==> CommandTraced(s, e) }

  ghost predicate TraceInv(s: State) { FilesInv(s) && ReadersTraced(s) && CommandsTraced(s) }

  // ---- every step keeps this ----

  lemma LastCreatedStays(s: seq<Event>, t: seq<Event>, l: nat, i: nat, n: Inode, c: nat)
    requires LastCreated(s, l, i, n, c) && |s| <= |t| && t[..|s|] == s
    ensures LastCreated(t, l, i, n, c)
  {
    forall k | 0 <= k < |s| ensures t[k] == s[k] { assert t[..|s|][k] == t[k]; }
  }

  lemma LinkedStays(s: State, t: State, p: Pid, i: nat, n: Inode, q: nat, l: nat)
    requires SlotsFollow(s, t) && LinkedAs(s, p, i, n, q, l)
    ensures LinkedAs(t, p, i, n, q, l)
  {
    var m := s.names[Consumed(i)];
    forall k | 0 <= k < |s.trace| ensures t.trace[k] == s.trace[k] { assert t.trace[..|s.trace|][k] == t.trace[k]; }
    var c: nat :| LastCreated(s.trace, l, i, m, c);
    LastCreatedStays(s.trace, t.trace, l, i, m, c);
    if m != n {
      var f: nat, c': nat :| q < f < c' && LastCreated(s.trace, l, i, m, c') && s.trace[f] == Removed(i);
      LastCreatedStays(s.trace, t.trace, l, i, m, c');
    }
  }

  /** A slot's current file stays the last one created while its name stays. */
  lemma CurrentStays(s: State, t: State, i: nat, n: Inode, c: nat)
    requires |s.trace| <= |t.trace| <= |s.trace| + 1 && t.trace[..|s.trace|] == s.trace && !NewCreate(s, t, i)
    requires LastCreated(s.trace, |s.trace|, i, n, c)
    ensures LastCreated(t.trace, |t.trace|, i, n, c)
  {
    forall k | 0 <= k < |s.trace| ensures t.trace[k] == s.trace[k] { assert t.trace[..|s.trace|][k] == t.trace[k]; }
  }

  lemma UnlinkedStays(s: State, t: State, p: Pid, r: Reader, n: Inode)
    requires SlotsFollow(s, t) && Unlinked(s, p, r, n)
    ensures Unlinked(t, p, r, n)
  {
    var i := r.next;
    forall k | 0 <= k < |s.trace| ensures t.trace[k] == s.trace[k] { assert t.trace[..|s.trace|][k] == t.trace[k]; }
    if Consumed(i) in t.names {
    } else if Pending(i) in t.names {
      var m := t.names[Pending(i)];
      if Pending(i) !in s.names {
        var f: nat :| r.openedAt < f < |s.trace| && s.trace[f] == Removed(i);
        assert LastCreated(t.trace, |t.trace|, i, m, |s.trace|);
        assert t.trace[f] == Removed(i);
      } else if m != n {
        var f: nat, c: nat :|
          r.openedAt < f < c && LastCreated(s.trace, |s.trace|, i, m, c) && s.trace[f] == Removed(i);
        CurrentStays(s, t, i, m, c);
      }
    } else if Pending(i) in s.names {
      assert t.trace[|s.trace|] == Removed(i);
    } else {
      var f: nat :| r.openedAt < f < |s.trace| && s.trace[f] == Removed(i);
      assert t.trace[f] == Removed(i);
    }
  }

  lemma ReaderStays(s: State, t: State, p: Pid)
    requires SlotsFollow(s, t) && p in s.readers && p in t.readers && t.readers[p] == s.readers[p] && ReaderTraced(s, p)
    ensures ReaderTraced(t, p)
  {
    hide SlotsFollow;
    hide Unlinked;
    hide LinkedAs;
    var r := s.readers[p];
    match r.pc
    case ReadDue(n) => UnlinkedStays(s, t, p, r, n);
    case CheckAgainDue(n, _) => UnlinkedStays(s, t, p, r, n);
    case LinkDue(n, _) => UnlinkedStays(s, t, p, r, n);
    case UnlinkDue(n, _) => LinkedStays(s, t, p, r.next, n, r.openedAt, r.linkedAt);
    case ExecuteDue(n, _) => LinkedStays(s, t, p, r.next, n, r.openedAt, r.linkedAt);
    case _ =>
  }

  lemma OwnReader(s: State, a: Action)
    requires FilesInv(s) && ReadersTraced(s) && Enabled(s, a) && !IsWriterAction(a) && SlotsFollow(s, Apply(s, a))
    ensures a.p in Apply(s, a).readers && ReaderTraced(Apply(s, a), a.p)
  {
    hide SlotsFollow;
    hide Unlinked;
    hide LinkedAs;
    hide FilesInv;
    var t := Apply(s, a);
    if a.StartReader? {
    } else {
      var p, r := a.p, s.readers[a.p];
      assert ReaderTraced(s, p);
      match a
      case Open(_) => OpenTraced(s, p);
      case Read(_) =>
        ReadIs(s, p);
        if t.readers[p].pc.CheckAgainDue? {
          UnlinkedStays(s, t, p, r, r.pc.inode);
          SameUnlinked(t, p, r, t.readers[p]);
        }
      case CheckAgain(_) =>
        if t.readers[p].pc.LinkDue? { UnlinkedStays(s, t, p, r, r.pc.inode); SameUnlinked(t, p, r, t.readers[p]); }
      case Link(_) => LinkTraced(s, p);
      case Unlink(_) =>
        if t.readers[p].pc.ExecuteDue? { LinkedStays(s, t, p, r.next, r.pc.inode, r.openedAt, r.linkedAt); }
      case _ =>
    }
  }

  lemma SameUnlinked(s: State, p: Pid, r: Reader, q: Reader)
    requires (r.pc.ReadDue? || r.pc.CheckAgainDue?) && Unlinked(s, p, r, r.pc.inode)
    requires q.next == r.next && q.openedAt == r.openedAt
    ensures Unlinked(s, p, q, r.pc.inode)
  {
  }

  /** A read keeps the file, the transition and the moment of the open, or stops the reader. */
  lemma ReadIs(s: State, p: Pid)
    requires Enabled(s, Read(p))
    ensures var r := s.readers[p];
      && p in Apply(s, Read(p)).readers
      && var q := Apply(s, Read(p)).readers[p];
         && q.next == r.next && q.openedAt == r.openedAt
         && (q.pc.CheckAgainDue? || q.pc == ReaderStopped)
         && (q.pc.CheckAgainDue? ==> q.pc.inode == r.pc.inode)
  {
    hide Accepted;
  }

  lemma OpenTraced(s: State, p: Pid)
    requires Enabled(s, Open(p))
    ensures p in Apply(s, Open(p)).readers && ReaderTraced(Apply(s, Open(p)), p)
  {
    hide Replaced;
    hide RemovedSince;
    hide LinkedAs;
  }

  lemma LinkTraced(s: State, p: Pid)
    requires Enabled(s, Link(p)) && FilesInv(s) && ReaderTraced(s, p)
    ensures p in Apply(s, Link(p)).readers && ReaderTraced(Apply(s, Link(p)), p)
  {
    hide NamesHaveFiles;
    hide CompletionsAre;
    hide CreatedFirst;
    var t := Apply(s, Link(p));
    var r := s.readers[p];
    var i, n := r.next, r.pc.inode;
    if t.readers[p].pc.UnlinkDue? {
      var m, l := s.names[Pending(i)], |s.trace|;
      assert Unlinked(s, p, r, n);
      var c: nat :| LastCreated(s.trace, l, i, m, c);
      LastCreatedStays(s.trace, t.trace, l, i, m, c);
      if m != n {
        var f: nat, c': nat :| r.openedAt < f < c' && LastCreated(s.trace, l, i, m, c') && s.trace[f] == Removed(i);
        LastCreatedStays(s.trace, t.trace, l, i, m, c');
      }
      assert LinkedAs(t, p, i, n, r.openedAt, l);
    }
  }

  /** A step of another kind of process leaves a reader alone. */
  lemma OtherReaders(s: State, a: Action, p: Pid)
    requires Enabled(s, a) && p in Apply(s, a).readers && (IsWriterAction(a) || p != a.p)
    ensures p in s.readers && Apply(s, a).readers[p] == s.readers[p]
  {
    hide Apply;
    hide Enabled;
    if IsWriterAction(a) { WriterLeavesReaders(s, a); } else { ReaderLeavesOthers(s, a, p); }
  }

  lemma ReadersStep(s: State, a: Action)
    requires TraceInv(s) && Enabled(s, a) && SlotsFollow(s, Apply(s, a))
    ensures ReadersTraced(Apply(s, a))
  {
    hide SlotsFollow;
    hide FilesInv;
    hide CommandsTraced;
    hide ReaderTraced;
    hide Apply;
    hide Enabled;
    var t := Apply(s, a);
    forall p | p in t.readers ensures ReaderTraced(t, p) {
      if IsWriterAction(a) || p != a.p {
        OtherReaders(s, a, p);
        ReaderStays(s, t, p);
      } else {
        OwnReader(s, a);
      }
    }
  }

  lemma CommandStays(s: State, t: State, e: Execution)
    requires SlotsFollow(s, t) && DirectoryGrows(s, t) && CommandTraced(s, e)
    ensures CommandTraced(t, e)
  {
    hide SlotsFollow;
    hide LinkedAs;
    LinkedStays(s, t, e.reader, e.index, e.read, e.openedAt, e.linkedAt);
    assert Holds(s, e.read, s.inodes[e.read].binding);
  }

  lemma NewCommand(s: State, a: Action)
    requires Inv(s) && ReadersTraced(s) && Enabled(s, a) && a.Execute?
    requires SlotsFollow(s, Apply(s, a)) && DirectoryGrows(s, Apply(s, a))
    ensures CommandTraced(Apply(s, a), Started(a.p, s.readers[a.p]))
  {
    hide SlotsFollow;
    hide LinkedAs;
    hide HistoryInv;
    hide WritersApart;
    hide WriterInv;
    hide Apply;
    var r := s.readers[a.p];
    assert ReaderTraced(s, a.p) && ReaderInv(s, a.p);
    CommandStays(s, Apply(s, a), Started(a.p, r));
  }

  lemma CommandsStep(s: State, a: Action)
    requires Inv(s) && TraceInv(s) && Enabled(s, a)
    requires SlotsFollow(s, Apply(s, a)) && DirectoryGrows(s, Apply(s, a))
    ensures CommandsTraced(Apply(s, a))
  {
    hide SlotsFollow;
    hide DirectoryGrows;
    hide Inv;
    hide FilesInv;
    hide ReadersTraced;
    hide CommandTraced;
    hide Apply;
    hide Enabled;
    var t := Apply(s, a);
    ExecutionsAre(s, a);
    forall e | e in s.executions ensures CommandTraced(t, e) { CommandStays(s, t, e); }
    if a.Execute? { NewCommand(s, a); }
  }

  // ---- the files, step by step ----

  /** Neither a create nor a completed write. */
  predicate QuietFor(s: State, t: State) {
    && t.inodes == s.inodes
    && (|t.trace| > |s.trace| ==> !t.trace[|s.trace|].Created? && !t.trace[|s.trace|].Completed?)
  }

  lemma MostStepsAreQuiet(s: State, a: Action)
    requires Enabled(s, a) && !a.Create? && !a.WriteAll?
    ensures QuietFor(s, Apply(s, a))
    ensures forall n :: n in Apply(s, a).names ==> n in s.names || (a.Link? && n == Consumed(s.readers[a.p].next))
    ensures forall n :: n in Apply(s, a).names && n in s.names ==> Apply(s, a).names[n] == s.names[n]
  {
    hide Accepted;
  }

  lemma QuietKeepsFiles(s: State, t: State)
    requires SlotsFollow(s, t) && QuietFor(s, t) && CompletionsAre(s) && CreatedFirst(s)
    requires forall k: nat :: k < |s.trace| && s.trace[k].Created? ==> s.trace[k].inode < |s.inodes|
    ensures CompletionsAre(t) && CreatedFirst(t)
    ensures forall k: nat :: k < |t.trace| && t.trace[k].Created? ==> t.trace[k].inode < |t.inodes|
  {
    forall k: nat | k < |s.trace| ensures t.trace[k] == s.trace[k] { assert t.trace[..|s.trace|][k] == t.trace[k]; }
    forall n: nat, b | Holds(t, n, b) ensures CompletedAs(t.trace, n, b) {
      assert Holds(s, n, b);
      var d: nat :| d < |s.trace| && s.trace[d] == Completed(n, b);
      assert t.trace[d] == Completed(n, b);
    }
    forall k: nat | k < |t.trace| && t.trace[k].Completed? ensures Holds(t, t.trace[k].inode, t.trace[k].binding) {
      assert t.trace[k] == s.trace[k];
      assert Holds(s, s.trace[k].inode, s.trace[k].binding);
    }
  }

  lemma QuietStep(s: State, a: Action)
    requires FilesInv(s) && Enabled(s, a) && !a.Create? && !a.WriteAll? && SlotsFollow(s, Apply(s, a))
    ensures NamesHaveFiles(Apply(s, a)) && CompletionsAre(Apply(s, a)) && CreatedFirst(Apply(s, a))
  {
    hide SlotsFollow;
    hide QuietFor;
    hide CompletionsAre;
    hide CreatedFirst;
    hide SlotsCreated;
    hide Apply;
    var t := Apply(s, a);
    MostStepsAreQuiet(s, a);
    QuietKeepsFiles(s, t);
    assert t.inodes == s.inodes by { QuietInodes(s, t); }
    if a.Link? { LinkedName(s, a.p); }
  }

  lemma QuietInodes(s: State, t: State)
    requires QuietFor(s, t)
    ensures t.inodes == s.inodes
  {
  }

  lemma LinkedName(s: State, p: Pid)
    requires Enabled(s, Link(p))
    ensures var t := Apply(s, Link(p));
      var i := s.readers[p].next;
      Consumed(i) in t.names && Consumed(i) !in s.names ==>
        Pending(i) in s.names && t.names[Consumed(i)] == s.names[Pending(i)]
  {
  }

  lemma CreateStep(s: State, p: Pid)
    requires FilesInv(s) && Enabled(s, Create(p))
    ensures NamesHaveFiles(Apply(s, Create(p))) && CreatedFirst(Apply(s, Create(p)))
  {
    hide SlotsCreated;
  }

  lemma CreateCompletes(s: State, p: Pid)
    requires CompletionsAre(s) && Enabled(s, Create(p))
    ensures CompletionsAre(Apply(s, Create(p)))
  {
    var t := Apply(s, Create(p));
    forall k: nat | k < |t.trace| && t.trace[k].Completed? ensures Holds(t, t.trace[k].inode, t.trace[k].binding) {
      assert Holds(s, s.trace[k].inode, s.trace[k].binding);
    }
    forall n: nat, b | Holds(t, n, b) ensures CompletedAs(t.trace, n, b) {
      assert Holds(s, n, b);
      var d: nat :| d < |s.trace| && s.trace[d] == Completed(n, b);
      assert t.trace[d] == Completed(n, b);
    }
  }

  lemma WriteStep(s: State, p: Pid)
    requires Inv(s) && FilesInv(s) && Enabled(s, WriteAll(p))
    ensures NamesHaveFiles(Apply(s, WriteAll(p))) && CreatedFirst(Apply(s, WriteAll(p)))
  {
    hide SlotsCreated;
    hide Inv;
  }

  lemma WriteCompletes(s: State, p: Pid)
    requires Enabled(s, WriteAll(p)) && WriterInv(s, p) && CompletionsAre(s)
    ensures CompletionsAre(Apply(s, WriteAll(p)))
  {
    var t := Apply(s, WriteAll(p));
    var w := s.writers[p];
    assert t.trace[|s.trace|] == Completed(w.pc.inode, w.binding);
    forall k: nat | k < |t.trace| && t.trace[k].Completed? ensures Holds(t, t.trace[k].inode, t.trace[k].binding) {
      if k < |s.trace| { assert Holds(s, s.trace[k].inode, s.trace[k].binding); }
    }
    forall n: nat, b | Holds(t, n, b) ensures CompletedAs(t.trace, n, b) {
      if n != w.pc.inode {
        assert Holds(s, n, b);
        var d: nat :| d < |s.trace| && s.trace[d] == Completed(n, b);
        assert t.trace[d] == Completed(n, b);
      }
    }
  }

  lemma SlotsStep(s: State, t: State)
    requires SlotsCreated(s) && SlotsFollow(s, t)
    ensures SlotsCreated(t)
  {
    forall i: nat | Pending(i) in t.names ensures CreatedLast(t.trace, |t.trace|, i, t.names[Pending(i)]) {
      var n := t.names[Pending(i)];
      if Pending(i) in s.names {
        var c: nat :| LastCreated(s.trace, |s.trace|, i, n, c);
        CurrentStays(s, t, i, n, c);
      } else {
        assert LastCreated(t.trace, |t.trace|, i, n, |s.trace|);
      }
    }
  }

  lemma FilesStep(s: State, a: Action)
    requires Inv(s) && FilesInv(s) && Enabled(s, a) && SlotsFollow(s, Apply(s, a))
    ensures FilesInv(Apply(s, a))
  {
    hide HistoryInv;
    hide WritersApart;
    hide ReaderInv;
    hide WriterInv;
    hide NamesHaveFiles;
    hide CompletionsAre;
    hide CreatedFirst;
    hide SlotsCreated;
    hide SlotsFollow;
    hide Apply;
    SlotsStep(s, Apply(s, a));
    if a.Create? {
      CreateStep(s, a.p);
      CreateCompletes(s, a.p);
    } else if a.WriteAll? {
      WriteStep(s, a.p);
      assert WriterInv(s, a.p);
      WriteCompletes(s, a.p);
    } else {
      QuietStep(s, a);
    }
  }

  lemma TraceStep(s: State, a: Action)
    requires Inv(s) && TraceInv(s) && Enabled(s, a)
    ensures TraceInv(Apply(s, a))
  {
    hide Inv;
    hide FilesInv;
    hide ReadersTraced;
    hide CommandsTraced;
    hide SlotsFollow;
    hide DirectoryGrows;
    hide Apply;
    hide Enabled;
    if IsWriterAction(a) {
      WriterSlots(s, a);
      WriterGrows(s, a);
    } else {
      ReaderSlots(s, a);
      ReaderGrows(s, a);
    }
    FilesStep(s, a);
    ReadersStep(s, a);
    CommandsStep(s, a);
  }

  lemma {:induction false} RunTraced(s: State, actions: seq<Action>)
    requires Inv(s) && TraceInv(s) && Legal(s, actions)
    ensures TraceInv(After(s, actions))
    decreases |actions|
  {
    hide Inv;
    hide TraceInv;
    hide Apply;
    hide Enabled;
    if actions != [] {
      Step(s, actions[0]);
      TraceStep(s, actions[0]);
      RunTraced(Apply(s, actions[0]), actions[1..]);
    }
  }

  lemma EveryRunTraced(actions: seq<Action>, x: nat)
    requires Legal(EMPTY, actions) && x < |After(EMPTY, actions).executions|
    ensures var s := After(EMPTY, actions);
      FilesInv(s) && CommandTraced(s, s.executions[x])
  {
    hide After;
    hide Legal;
    hide FilesInv;
    hide CommandTraced;
    hide ReadersTraced;
    assert FilesInv(EMPTY) by { NothingYet(); }
    assert ReadersTraced(EMPTY) by { NothingYet(); }
    RunTraced(EMPTY, actions);
    var s := After(EMPTY, actions);
    assert s.executions[x] in s.executions;
  }

  lemma NothingYet()
    ensures FilesInv(EMPTY) && ReadersTraced(EMPTY)
  {
  }

  // ---- exactly when the ratio run is not the consumed binding's ----

  /** Between the open and the link of command e its slot was removed and created again, last as
      file n at moment c. */
  ghost predicate SwappedFor(trace: seq<Event>, e: Execution, n: Inode, c: nat) {
    && LastCreated(trace, e.linkedAt, e.index, n, c)
    && exists f: nat :: e.openedAt < f < c && trace[f] == Removed(e.index)
  }

  /** File n is completed after moment c with a binding whose ratio is, or is not, that one. */
  ghost predicate CompletedLater(trace: seq<Event>, n: Inode, c: nat, ratio: nat, same: bool) {
    exists d: nat, b: Binding :: c < d < |trace| && trace[d] == Completed(n, b) && (b.ratio == ratio) == same
  }

  /** The file consumed for command e. */
  function ConsumedContent(s: State, e: Execution): Content
    requires Consumed(e.index) in s.names && s.names[Consumed(e.index)] < |s.inodes|
  {
    s.inodes[s.names[Consumed(e.index)]]
  }

  lemma CompletedIsContent(s: State, i: nat, n: Inode, c: nat, l: nat, ratio: nat, same: bool)
    requires FilesInv(s) && LastCreated(s.trace, l, i, n, c) && n < |s.inodes|
    ensures s.inodes[n].Complete? && (s.inodes[n].binding.ratio == ratio) == same
      <==> CompletedLater(s.trace, n, c, ratio, same)
  {
    hide SlotsCreated;
    hide NamesHaveFiles;
    if s.inodes[n].Complete? && (s.inodes[n].binding.ratio == ratio) == same {
      var b := s.inodes[n].binding;
      assert Holds(s, n, b);
      var d: nat :| d < |s.trace| && s.trace[d] == Completed(n, b);
      assert s.trace[c].Created? && s.trace[d].Completed?;
    }
    if CompletedLater(s.trace, n, c, ratio, same) {
      var d: nat, b: Binding :| c < d < |s.trace| && s.trace[d] == Completed(n, b) && (b.ratio == ratio) == same;
      assert Holds(s, s.trace[d].inode, s.trace[d].binding);
    }
  }

  /** What the open and link of a command are, in the trace, and that the ratio run is the one read. */
  lemma CommandHistory(actions: seq<Action>, x: nat)
    requires Legal(EMPTY, actions) && x < |After(EMPTY, actions).executions|
    ensures var s := After(EMPTY, actions);
      var e := s.executions[x];
      && Consumed(e.index) in s.names && s.names[Consumed(e.index)] < |s.inodes|
      && e.openedAt < e.linkedAt < |s.trace|
      && s.trace[e.openedAt] == OpenedBy(e.reader, e.index, e.read)
      && s.trace[e.linkedAt] == LinkedBy(e.reader, e.index, s.names[Consumed(e.index)])
      && e.read < |s.inodes| && s.inodes[e.read].Complete? && s.inodes[e.read].binding.ratio == e.ratio
  {
    hide After;
    hide Legal;
    hide CompletionsAre;
    hide CreatedFirst;
    hide SlotsCreated;
    EveryRunTraced(actions, x);
  }

  /** For every run and every command started in it: the consumed binding has another ratio than
      the command exactly when, between its reader's open and link, a writer that failed removed
      the slot's name, the slot was created again, last as some file n, and n is completed, before
      or after the link, with another ratio. */
  lemma OtherRatioExactlyWhenSwapped(actions: seq<Action>, x: nat)
    requires Legal(EMPTY, actions) && x < |After(EMPTY, actions).executions|
    ensures var s := After(EMPTY, actions);
      var e := s.executions[x];
      && Consumed(e.index) in s.names && s.names[Consumed(e.index)] < |s.inodes|
      && (ConsumedContent(s, e).Complete? && ConsumedContent(s, e).binding.ratio != e.ratio
          <==> exists n, c: nat :: SwappedFor(s.trace, e, n, c) && CompletedLater(s.trace, n, c, e.ratio, false))
  {
    hide After;
    hide Legal;
    hide CompletedLater;
    hide CompletionsAre;
    hide CreatedFirst;
    hide SlotsCreated;
    EveryRunTraced(actions, x);
    var s := After(EMPTY, actions);
    var e := s.executions[x];
    var m := s.names[Consumed(e.index)];
    var c: nat :| LastCreated(s.trace, e.linkedAt, e.index, m, c);
    CompletedIsContent(s, e.index, m, c, e.linkedAt, e.ratio, false);
    forall n, k: nat | SwappedFor(s.trace, e, n, k) ensures n == m && k == c {
      assert LastCreated(s.trace, e.linkedAt, e.index, n, k);
    }
  }

  /** The file consumed for a command is the one it was read from, unless its slot was swapped. */
  lemma ConsumedIsReadOrSwapped(s: State, e: Execution, c: nat)
    requires CommandTraced(s, e) && LastCreated(s.trace, e.linkedAt, e.index, s.names[Consumed(e.index)], c)
    ensures s.names[Consumed(e.index)] == e.read || SwappedFor(s.trace, e, s.names[Consumed(e.index)], c)
  {
    var m := s.names[Consumed(e.index)];
    if m != e.read {
      var f: nat, k: nat :|
        e.openedAt < f < k && LastCreated(s.trace, e.linkedAt, e.index, m, k) && s.trace[f] == Removed(e.index);
      assert k == c;
    }
  }

  /** And it runs the consumed binding's ratio exactly when every such swap, if there was one, ends
      in a file completed with the same ratio. */
  lemma SameRatioExactlyWhenHarmless(actions: seq<Action>, x: nat)
    requires Legal(EMPTY, actions) && x < |After(EMPTY, actions).executions|
    ensures var s := After(EMPTY, actions);
      var e := s.executions[x];
      && Consumed(e.index) in s.names && s.names[Consumed(e.index)] < |s.inodes|
      && (ConsumedContent(s, e).Complete? && ConsumedContent(s, e).binding.ratio == e.ratio
          <==> forall n, c: nat :: SwappedFor(s.trace, e, n, c) ==> CompletedLater(s.trace, n, c, e.ratio, true))
  {
    hide After;
    hide Legal;
    hide CompletedLater;
    hide CompletionsAre;
    hide CreatedFirst;
    hide SlotsCreated;
    EveryRunTraced(actions, x);
    var s := After(EMPTY, actions);
    var e := s.executions[x];
    var m := s.names[Consumed(e.index)];
    var c: nat :| LastCreated(s.trace, e.linkedAt, e.index, m, c);
    CompletedIsContent(s, e.index, m, c, e.linkedAt, e.ratio, true);
    ConsumedIsReadOrSwapped(s, e, c);
    forall n, k: nat | SwappedFor(s.trace, e, n, k) ensures n == m && k == c {
      assert LastCreated(s.trace, e.linkedAt, e.index, n, k);
    }
  }
}
