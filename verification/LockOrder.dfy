/** The reader takes the pending mutex and then the writer mutex, a call that finds no writer takes them the other way
    round: when the two can block each other, and that it is then for good. */
module LockOrder {
  import opened Bytes
  import opened Protocol
  import opened Commands
  import opened ConnectionState
  import opened ConnectionRuns
  import opened ConnectionGuarantees
  import opened OneOpening
  import opened Overtaking

  /** Call c holds the writer mutex and asks for the pending one, reader r the other way round. */
  ghost predicate Deadlocked(s: State, c: nat, r: nat) {
    && s.writerLock == Some(c) && c in s.calls && s.calls[c].pc.SawNoWriter?
    && s.pendingLock == Some(r) && r in s.readers && s.readers[r].Drained?
  }

  /** Only an asynchronous call can be cancelled out of it. */
  predicate Cancels(a: Action, c: nat) {
    a.ByCall? && a.call == c && a.callStep.Cancel?
  }

  lemma NeitherCanMove(s: State, c: nat, r: nat, callStep: CallStep, readerStep: ReaderStep)
    requires Deadlocked(s, c, r)
    ensures NextReader(s, r, readerStep).None?
    ensures !callStep.Cancel? ==> NextCall(s, c, callStep).None?
  {
  }

  /** Nor can anyone who needs either mutex. */
  lemma NobodyGetsThrough(s: State, c: nat, r: nat, d: nat, fault: Option<nat>, k: nat, o: nat, stream: nat)
    requires Deadlocked(s, c, r)
    ensures NextCall(s, d, Insert).None? && NextCall(s, d, Write(fault)).None? && NextCall(s, d, Unregister).None?
    ensures NextCloser(s, k, TakeStream).None? && NextCloser(s, k, WakeAll).None?
    ensures NextOpener(s, o, Look).None? && NextOpener(s, o, Connect(stream)).None?
  {
  }

  lemma OtherCallsKeepLocks(s: State, c: nat, r: nat, d: nat, a: CallStep)
    requires Deadlocked(s, c, r) && c != d && NextCall(s, d, a).Some?
    ensures Deadlocked(NextCall(s, d, a).value, c, r)
  {
    NobodyGetsThrough(s, c, r, d, None, 0, 0, 0);
  }

  lemma StepKeepsDeadlock(s: State, c: nat, r: nat, a: Action)
    requires Deadlocked(s, c, r) && Next(s, a).Some? && !Cancels(a, c)
    ensures Deadlocked(Next(s, a).value, c, r)
  {
    match a {
      case Begin(_, _) =>
      case ByCall(d, step) =>
        NeitherCanMove(s, c, r, step, FailHeader);
        OtherCallsKeepLocks(s, c, r, d, step);
      case ByReader(q, step) => NeitherCanMove(s, c, r, Insert, step);
      case ByCloser(_, _) =>
      case ByOpener(_, _) =>
    }
  }

  /** However the others go on, neither ever moves again, unless the call is cancelled. */
  lemma {:induction false} DeadlockIsForever(s: State, c: nat, r: nat, more: seq<Action>)
    requires Deadlocked(s, c, r) && Run(s, more).Some? && forall a :: a in more ==> !Cancels(a, c)
    ensures Deadlocked(Run(s, more).value, c, r)
    decreases |more|
  {
    if more != [] {
      DeadlockIsForever(s, c, r, more[..|more| - 1]);
      StepKeepsDeadlock(Run(s, more[..|more| - 1]).value, c, r, more[|more| - 1]);
    }
  }

  /** A reader about to drain and a call about to look at the writer can block each other exactly when the writer is
      gone. */
  lemma CollideExactly(s: State, c: nat, r: nat)
    requires c in s.calls && s.calls[c].pc.Inserted? && s.calls[c].frame.Ok?
    requires r in s.readers && s.readers[r].Failing? && s.writerLock.None? && s.pendingLock.None?
    ensures (exists t :: Run(s, [ByCall(c, Write(None)), ByReader(r, DrainAll)]) == Some(t) && Deadlocked(t, c, r))
       <==> s.sh.writer.None?
  {
    var write, drain := ByCall(c, Write(None)), ByReader(r, DrainAll);
    var u := NextWrite(s, c, None).value;
    var t := NextReader(u, r, DrainAll).value;
    TwoSteps(s, write, u, drain, t);
    assert Deadlocked(t, c, r) <==> s.sh.writer.None?;
  }

  /** With one open it takes a close, and a writer that is gone. */
  lemma OnlyWithAClose(actions: seq<Action>, o: nat, s: State, c: nat, r: nat)
    requires Run(FRESH, actions) == Some(s) && OneOpener(actions, o) && Deadlocked(s, c, r)
    ensures s.closers != map[] && s.sh.writer.None?
  {
    FreshIsSound(o);
    RunIsSound(FRESH, o, actions);
  }

  /** A run of one open, one close and one call that gets there, for every command that encodes. */
  lemma LocksCanDeadlock(command: Command) returns (actions: seq<Action>, s: State)
    requires FrameOf(command).Ok?
    ensures Run(FRESH, actions) == Some(s) && OneOpener(actions, 0) && Deadlocked(s, 0, 0)
  {
    var connecting, u := StartConnecting();
    var reading, v := ConnectAfterClose(u);
    var taking, w := FailWhileClosing(v, command);
    var end := [ByCall(0, Write(None)), ByReader(0, DrainAll)];
    CollideExactly(w, 0, 0);
    s :| Run(w, end) == Some(s) && Deadlocked(s, 0, 0);
    ThreeRuns(FRESH, connecting, u, reading, v, taking, w);
    RunOn(FRESH, connecting + reading + taking, end);
    actions := connecting + reading + taking + end;
  }

  lemma StartConnecting() returns (actions: seq<Action>, s: State)
    ensures Run(FRESH, actions) == Some(s) && OneOpener(actions, 0) && s == FRESH.(openers := map[0 := Connecting])
  {
    s := FRESH.(openers := map[0 := Connecting]);
    assert map[0 := MustConnect][0 := Connecting] == map[0 := Connecting];
    actions := [ByOpener(0, Look), ByOpener(0, ResetClosed)];
    TwoSteps(FRESH, actions[0], FRESH.(openers := map[0 := MustConnect]), actions[1], s);
  }

  /** The call enters, the reader sees the stream fail with the flag down, and then a close raises it and takes. */
  lemma FailWhileClosing(s: State, command: Command) returns (actions: seq<Action>, t: State)
    requires s.calls == map[] && s.closers == map[] && s.readers == map[0 := Reading] && !s.sh.closed
    requires s.writerLock.None? && s.pendingLock.None? && FrameOf(command).Ok?
    ensures Run(s, actions) == Some(t) && OneOpener(actions, 0)
    ensures 0 in t.calls && t.calls[0].pc.Inserted? && t.calls[0].frame.Ok? && t.readers == map[0 := Failing]
    ensures t.writerLock.None? && t.pendingLock.None? && t.sh.writer.None?
  {
    var entering, u := Enter(s, command);
    var fail, v := ByReader(0, FailHeader), u.(readers := map[0 := Failing]);
    assert u.readers[0 := Failing] == v.readers;
    OneStep(u, fail, v);
    var closing := [ByCloser(0, StoreClosed), ByCloser(0, TakeStream)];
    t := v.(sh := v.sh.(closed := true, writer := None), closers := map[0 := Took]);
    assert map[0 := Stored][0 := Took] == map[0 := Took];
    TwoSteps(v, closing[0], v.(sh := v.sh.(closed := true), closers := map[0 := Stored]), closing[1], t);
    ThreeRuns(s, entering, u, [fail], v, closing, t);
    actions := entering + [fail] + closing;
  }

  lemma Enter(s: State, command: Command) returns (actions: seq<Action>, t: State)
    requires s.calls == map[] && !s.sh.closed && s.pendingLock.None? && FrameOf(command).Ok?
    ensures Run(s, actions) == Some(t) && forall a :: a in actions ==> !a.ByOpener?
    ensures 0 in t.calls && t.calls[0].pc.Inserted? && t.calls[0].frame.Ok?
    ensures t.readers == s.readers && t.closers == s.closers && t.sh.closed == s.sh.closed
    ensures t.writerLock == s.writerLock && t.pendingLock == s.pendingLock
  {
    var begun := NextBegin(s, 0, command).value;
    t := NextCall(begun, 0, Insert).value;
    actions := [Begin(0, command), ByCall(0, Insert)];
    TwoSteps(s, actions[0], begun, actions[1], t);
  }
}
