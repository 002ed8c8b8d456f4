/** What holds while a single `open` is ever made on a connection, with any number of calls and closers before, during
    and after it. */
module OneOpening {
  import opened Bytes
  import opened Protocol
  import opened Commands
  import opened ConnectionState
  import opened ConnectionRuns
  import opened ConnectionGuarantees

  /** Only one thread opens the connection. */
  ghost predicate OneOpener(actions: seq<Action>, o: nat) {
    forall a :: a in actions && a.ByOpener? ==> a.opener == o
  }

  predicate Connects(a: Action) {
    a.ByOpener? && a.openerStep.Connect?
  }

  predicate Takes(a: Action) {
    a.ByCloser? && a.closerStep.TakeStream?
  }

  /** The opener has not put a stream in place. */
  predicate Unconnected(s: State, o: nat) {
    o !in s.openers || s.openers[o].MustConnect? || s.openers[o].Connecting?
  }

  /** There is no writer, and no call that waits still owns an entry: each was answered or lost its sender. */
  ghost predicate Quiet(s: State) {
    s.sh.writer.None? && forall c :: c in s.calls && s.calls[c].pc.Waiting? ==> !s.sh.Owns(c)
  }

  /** Until the opener connects there is nothing to write to, nobody reads and nobody waits. */
  ghost predicate Opening(s: State, o: nat) {
    && s.openers.Keys <= {o}
    && (Unconnected(s, o) ==>
          s.sh.writer.None? && s.readers == map[] && forall c :: c in s.calls ==> !s.calls[c].pc.Waiting?)
  }

  /** The closed flag is a closer's doing. */
  ghost predicate FlagIsClosers(s: State) {
    && (s.sh.closed ==> s.closers != map[])
    && (forall r :: r in s.readers && s.readers[r].EndedSawClosed? ==> s.closers != map[])
  }

  ghost predicate TookIsQuiet(s: State) {
    forall r :: r in s.readers && s.readers[r].EndedTook? ==> Quiet(s)
  }

  /** There is one reader at most, and only it can hold the pending mutex; a call holds the writer mutex only where it
      found no writer. */
  ghost predicate Locks(s: State, o: nat) {
    && (forall r, q :: r in s.readers && q in s.readers ==> r == q)
    && (o in s.openers && s.openers[o].Spawning? ==> s.readers == map[])
    && (s.pendingLock.Some? ==> s.pendingLock.value in s.readers && s.readers[s.pendingLock.value].Drained?)
    && (s.writerLock.Some? ==> s.sh.writer.None?)
  }

  /** Without a closer the writer stays until a reader takes it. */
  ghost predicate WriterKept(s: State, o: nat) {
    && (s.closers == map[] && o in s.openers && s.openers[o].Spawning? ==> s.sh.writer.Some?)
    && (forall r :: r in s.readers && !s.readers[r].EndedTook? && s.closers == map[] ==> s.sh.writer.Some?)
  }

  ghost predicate Sound(s: State, o: nat) {
    Inv(s) && Opening(s, o) && FlagIsClosers(s) && TookIsQuiet(s) && Locks(s, o) && WriterKept(s, o)
  }

  // ---------------------------------------------------------------- what each kind of step does

  /** Calls never touch the writer, the closed flag or the other threads, come to wait only past a writer, and keep the
      writer mutex only where there is none. */
  ghost predicate CallOnly(s: State, t: State, c: nat) {
    && t.sh.writer == s.sh.writer && t.sh.closed == s.sh.closed && t.pendingLock == s.pendingLock
    && t.readers == s.readers && t.closers == s.closers && t.openers == s.openers
    && (t.writerLock.Some? ==> s.writerLock.Some? || s.sh.writer.None?)
    && c in s.calls && c in t.calls && (t.calls[c].pc.Waiting? ==> s.calls[c].pc.Waiting? || s.sh.writer.Some?)
  }

  lemma LeaveEffects(s: State, c: nat, sh: Shared, outcome: Outcome)
    requires c in s.calls && sh.writer == s.sh.writer && sh.closed == s.sh.closed
    ensures CallOnly(s, Leave(s, c, sh, outcome), c)
  {
  }

  lemma CancelWriteEffects(s: State, c: nat, written: nat, contended: bool)
    requires NextCall(s, c, CancelWrite(written, contended)).Some?
    ensures CallOnly(s, NextCall(s, c, CancelWrite(written, contended)).value, c)
  {
    var half := s.(sh := WriteBytes(s.sh, s.calls[c].frame.value[..written]), torn := true);
    LeaveEffects(half, c, Drop(half, c, contended).sh, Cancelled);
  }

  lemma MoveEffects(s: State, c: nat, sh: Shared, writerLock: Option<nat>, order: seq<nat>, torn: bool, pc: CallPc)
    requires c in s.calls && sh.writer == s.sh.writer && sh.closed == s.sh.closed
    requires writerLock.Some? ==> s.writerLock.Some? || s.sh.writer.None?
    requires pc.Waiting? ==> s.sh.writer.Some?
    ensures CallOnly(s, Move(s.(sh := sh, writerLock := writerLock, order := order, torn := torn), c, pc), c)
  {
  }

  lemma WriteEffects(s: State, c: nat, fault: Option<nat>)
    requires c in s.calls && NextWrite(s, c, fault).Some?
    ensures CallOnly(s, NextWrite(s, c, fault).value, c)
  {
    var frame := s.calls[c].frame.value;
    if s.sh.writer.None? {
      MoveEffects(s, c, s.sh, Some(c), s.order, s.torn, SawNoWriter);
    } else if fault.None? {
      MoveEffects(s, c, WriteBytes(s.sh, frame), s.writerLock, s.order + [c], s.torn, Waiting);
    } else {
      MoveEffects(s, c, WriteBytes(s.sh, frame[..fault.value]), s.writerLock, s.order, true, WriteFailed);
    }
  }

  lemma CallEffects(s: State, c: nat, a: CallStep)
    requires NextCall(s, c, a).Some?
    ensures CallOnly(s, NextCall(s, c, a).value, c)
  {
    match a {
      case Write(fault) => WriteEffects(s, c, fault);
      case Unregister =>
        LeaveEffects(s, c, RemovePending(s.sh, s.calls[c].id), ExitOutcome(s.calls[c].pc).value);
      case Cancel(contended) =>
        if !s.calls[c].pc.Checked? {
          LeaveEffects(s, c, Drop(s, c, contended).sh, Cancelled);
        }
      case CancelWrite(written, contended) => CancelWriteEffects(s, c, written, contended);
      case _ =>
    }
  }

  /** A step of a reader, but for the messages it sends. */
  ghost predicate ReaderOnly(s: State, t: State, r: nat) {
    && t.sh.closed == s.sh.closed && t.closers == s.closers && t.openers == s.openers && t.calls == s.calls
    && r in s.readers && r in t.readers && t.readers == s.readers[r := t.readers[r]]
    && t.writerLock == s.writerLock && (s.writerLock.Some? ==> t.sh.writer == s.sh.writer)
    && (t.readers[r].EndedTook? ==> s.readers[r].EndedTook? || (t.sh.writer.None? && t.sh.pending == map[]))
    && (t.readers[r].EndedSawClosed? ==> s.readers[r].EndedSawClosed? || s.sh.closed)
    && (t.sh.writer == s.sh.writer || (t.readers[r].EndedTook? && t.sh.writer.None?))
    && (t.pendingLock.Some? ==>
          (t.pendingLock == Some(r) && t.readers[r].Drained?)
          || (t.pendingLock == s.pendingLock && t.readers == s.readers)
          || (t.pendingLock == s.pendingLock && !s.readers[r].Drained?))
    && (s.readers[r].EndedTook? ==> t.readers[r].EndedTook?)
  }

  lemma ReaderEffects(s: State, r: nat, a: ReaderStep)
    requires Inv(s) && NextReader(s, r, a).Some?
    ensures ReaderOnly(s, NextReader(s, r, a).value, r)
  {
    match a {
      case Frame(header, data) => FrameEffects(s, r, header, data);
      case FailHeader =>
      case DrainAll =>
      case TakeWriter =>
      case FailExtra =>
    }
  }

  lemma FrameEffects(s: State, r: nat, header: Header, data: Option<seq<u8>>)
    requires NextReader(s, r, Frame(header, data)).Some?
    ensures ReaderOnly(s, NextReader(s, r, Frame(header, data)).value, r)
  {
    assert s.readers == s.readers[r := s.readers[r]];
  }

  ghost predicate CloserOnly(s: State, t: State, k: nat) {
    && t.openers == s.openers && t.calls == s.calls && t.readers == s.readers
    && t.pendingLock == s.pendingLock && t.writerLock == s.writerLock
    && k in t.closers && t.closers == s.closers[k := t.closers[k]] && (s.sh.closed ==> t.sh.closed)
    && (t.sh.writer == s.sh.writer || (t.sh.writer.None? && s.writerLock.None?))
    && (!t.closers[k].Stored? ==> t.sh.writer.None? || (k in s.closers && !s.closers[k].Stored?))
    && (t.closers[k].Finished? ==>
          k in s.closers && ((t.sh.pending == map[] && !s.closers[k].Stored?) || s.closers[k].Finished?))
  }

  lemma CloserEffects(s: State, k: nat, a: CloserStep)
    requires NextCloser(s, k, a).Some?
    ensures CloserOnly(s, NextCloser(s, k, a).value, k)
  {
  }

  /** A step of the opener other than its connect. */
  ghost predicate OpenerOnly(s: State, t: State, o: nat) {
    && t.calls == s.calls && t.closers == s.closers
    && t.pendingLock == s.pendingLock && t.writerLock == s.writerLock
    && t.sh == s.sh.(closed := t.sh.closed) && (t.sh.closed ==> s.sh.closed)
    && o in t.openers && t.openers == s.openers[o := t.openers[o]]
    && (Unconnected(t, o) ==> Unconnected(s, o)) && (!Unconnected(s, o) ==> t.sh.closed == s.sh.closed)
    && !t.openers[o].Spawning?
    && (t.readers == s.readers
        || (o in s.openers && s.openers[o].Spawning?
            && t.readers == s.readers[s.openers[o].stream := Reading] && s.openers[o].stream !in s.readers))
  }

  lemma OpenerEffects(s: State, o: nat, a: OpenerStep)
    requires NextOpener(s, o, a).Some? && !a.Connect?
    ensures OpenerOnly(s, NextOpener(s, o, a).value, o)
  {
  }

  // ---------------------------------------------------------------- quiet stays quiet

  lemma AnswersKeepQuiet(s: State, t: State)
    requires Quiet(s) && Answers(s.sh, t.sh) && t.calls == s.calls && t.sh.writer.None?
    requires Inv(s)
    ensures Quiet(t)
  {
    forall c | c in t.calls && t.calls[c].pc.Waiting?
      ensures !t.sh.Owns(c)
    {
      assert CallOk(s, c) && Answered(s.sh, t.sh, c);
    }
  }

  lemma InsertKeepsQuiet(s: State, c: nat)
    requires Quiet(s) && Inv(s) && NextCall(s, c, Insert).Some?
    ensures Quiet(NextCall(s, c, Insert).value)
  {
    var t := NextCall(s, c, Insert).value;
    forall d | d in t.calls && t.calls[d].pc.Waiting?
      ensures !t.sh.Owns(d)
    {
      assert d != c && !s.sh.Owns(d);
    }
  }

  lemma CallKeepsQuiet(s: State, c: nat, a: CallStep)
    requires Quiet(s) && Inv(s) && NextCall(s, c, a).Some?
    ensures Quiet(NextCall(s, c, a).value)
  {
    CallEffects(s, c, a);
    if a.Insert? {
      InsertKeepsQuiet(s, c);
    } else {
      CallEffect(s, c, a);
      MoveKeepsQuiet(s, NextCall(s, c, a).value, c);
    }
  }

  lemma MoveKeepsQuiet(s: State, t: State, c: nat)
    requires Quiet(s) && Moves(s, t, c) && t.sh.writer == s.sh.writer
    requires t.sh.pending == s.sh.pending || t.sh.pending == s.sh.pending - {s.calls[c].id}
    requires t.calls[c].pc.Waiting? ==> s.calls[c].pc.Waiting?
    ensures Quiet(t)
  {
    forall d | d in t.calls && t.calls[d].pc.Waiting?
      ensures !t.sh.Owns(d)
    {
      assert s.calls[d].pc.Waiting? && !s.sh.Owns(d);
    }
  }

  lemma StepKeepsQuiet(s: State, a: Action)
    requires Quiet(s) && Inv(s) && Next(s, a).Some? && !Connects(a)
    ensures Quiet(Next(s, a).value)
  {
    var t := Next(s, a).value;
    match a {
      case Begin(c, _) =>
        assert t.sh == s.sh;
      case ByCall(c, step) => CallKeepsQuiet(s, c, step);
      case ByOpener(o, step) =>
        OpenerEffects(s, o, step);
        SameEntriesQuiet(s, t);
      case _ =>
        OthersAnswer(s, a);
        AnswersKeepQuiet(s, t);
    }
  }

  lemma SameEntriesQuiet(s: State, t: State)
    requires Quiet(s) && t.calls == s.calls && t.sh == s.sh.(closed := t.sh.closed)
    ensures Quiet(t)
  {
    forall c | c in t.calls && t.calls[c].pc.Waiting?
      ensures !t.sh.Owns(c)
    {
      assert !s.sh.Owns(c);
    }
  }

  lemma NothingPendingIsQuiet(s: State)
    requires s.sh.writer.None? && s.sh.pending == map[]
    ensures Quiet(s)
  {
  }

  // ---------------------------------------------------------------- every step keeps the whole of it

  ghost predicate Threads(s: State, o: nat) {
    Opening(s, o) && FlagIsClosers(s) && Locks(s, o) && WriterKept(s, o)
  }

  lemma BeginKeepsThreads(s: State, o: nat, c: nat, command: Command)
    requires Threads(s, o) && NextBegin(s, c, command).Some?
    ensures Threads(NextBegin(s, c, command).value, o)
  {
  }

  lemma CallKeepsThreads(s: State, t: State, o: nat, c: nat)
    requires Threads(s, o) && CallOnly(s, t, c) && t.calls == s.calls[c := t.calls[c]]
    ensures Threads(t, o)
  {
  }

  lemma ReaderKeepsThreads(s: State, t: State, o: nat, r: nat)
    requires Threads(s, o) && ReaderOnly(s, t, r)
    ensures Threads(t, o)
  {
    assert t.readers.Keys == s.readers.Keys;
  }

  lemma CloserKeepsThreads(s: State, t: State, o: nat, k: nat)
    requires Threads(s, o) && CloserOnly(s, t, k)
    ensures Threads(t, o)
  {
    assert t.closers != map[];
  }

  lemma OpenerKeepsThreads(s: State, t: State, o: nat)
    requires Threads(s, o) && OpenerOnly(s, t, o)
    ensures Threads(t, o)
  {
    assert t.openers.Keys == s.openers.Keys + {o};
  }

  lemma ConnectKeepsThreads(s: State, o: nat, stream: nat)
    requires Threads(s, o) && NextOpener(s, o, Connect(stream)).Some?
    ensures Threads(NextOpener(s, o, Connect(stream)).value, o)
  {
  }

  lemma CallsUpdate(s: State, c: nat, a: CallStep)
    requires Inv(s) && NextCall(s, c, a).Some?
    ensures c in NextCall(s, c, a).value.calls
    ensures NextCall(s, c, a).value.calls == s.calls[c := NextCall(s, c, a).value.calls[c]]
  {
    if !a.Insert? {
      CallEffect(s, c, a);
    }
  }

  lemma StepKeepsThreads(s: State, o: nat, a: Action)
    requires Inv(s) && Threads(s, o) && Next(s, a).Some? && (a.ByOpener? ==> a.opener == o)
    ensures Threads(Next(s, a).value, o)
  {
    var t := Next(s, a).value;
    match a {
      case Begin(c, command) => BeginKeepsThreads(s, o, c, command);
      case ByCall(c, step) =>
        CallEffects(s, c, step);
        CallsUpdate(s, c, step);
        CallKeepsThreads(s, t, o, c);
      case ByReader(r, step) =>
        ReaderEffects(s, r, step);
        ReaderKeepsThreads(s, t, o, r);
      case ByCloser(k, step) =>
        CloserEffects(s, k, step);
        CloserKeepsThreads(s, t, o, k);
      case ByOpener(_, step) =>
        if step.Connect? {
          ConnectKeepsThreads(s, o, step.stream);
        } else {
          OpenerEffects(s, o, step);
          OpenerKeepsThreads(s, t, o);
        }
    }
  }

  lemma StepKeepsTookIsQuiet(s: State, o: nat, a: Action)
    requires Inv(s) && Opening(s, o) && TookIsQuiet(s) && Next(s, a).Some? && (a.ByOpener? ==> a.opener == o)
    ensures TookIsQuiet(Next(s, a).value)
  {
    var t := Next(s, a).value;
    if Quiet(s) && !Connects(a) {
      StepKeepsQuiet(s, a);
    } else {
      match a {
        case Begin(_, _) =>
        case ByCall(c, step) => CallEffects(s, c, step);
        case ByReader(r, step) =>
          ReaderEffects(s, r, step);
          if t.readers[r].EndedTook? && !s.readers[r].EndedTook? {
            NothingPendingIsQuiet(t);
          }
        case ByCloser(k, step) => CloserEffects(s, k, step);
        case ByOpener(_, step) =>
          if !step.Connect? {
            OpenerEffects(s, o, step);
          }
      }
    }
  }

  lemma StepKeepsSound(s: State, o: nat, a: Action)
    requires Sound(s, o) && Next(s, a).Some? && (a.ByOpener? ==> a.opener == o)
    ensures Sound(Next(s, a).value, o)
    ensures !Unconnected(s, o) ==> !Unconnected(Next(s, a).value, o) && !Connects(a)
  {
    StepKeepsInv(s, a);
    StepKeepsThreads(s, o, a);
    StepKeepsTookIsQuiet(s, o, a);
    if !Unconnected(s, o) {
      StaysConnected(s, o, a);
    }
  }

  lemma StaysConnected(s: State, o: nat, a: Action)
    requires !Unconnected(s, o) && Next(s, a).Some? && (a.ByOpener? ==> a.opener == o)
    ensures !Unconnected(Next(s, a).value, o) && !Connects(a)
  {
    match a {
      case ByCall(c, step) => CallEffects(s, c, step);
      case _ =>
    }
  }

  lemma {:induction false} RunIsSound(s: State, o: nat, actions: seq<Action>)
    requires Sound(s, o) && Run(s, actions).Some? && OneOpener(actions, o)
    ensures Sound(Run(s, actions).value, o)
    ensures !Unconnected(s, o) ==> !Unconnected(Run(s, actions).value, o)
    decreases |actions|
  {
    if actions != [] {
      RunIsSound(s, o, actions[..|actions| - 1]);
      StepKeepsSound(Run(s, actions[..|actions| - 1]).value, o, actions[|actions| - 1]);
    }
  }

  lemma FreshIsSound(o: nat)
    ensures Sound(FRESH, o)
  {
    FreshInv();
  }
}
