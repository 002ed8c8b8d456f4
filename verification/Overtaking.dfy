/** A close that overtakes the open: when it can leave a call behind with nobody left to answer it. */
module Overtaking {
  import opened Bytes
  import opened Protocol
  import opened Commands
  import opened ConnectionState
  import opened ConnectionRuns
  import opened ConnectionGuarantees
  import opened OneOpening

  // ---------------------------------------------------------------- the failure and its condition

  predicate Ended(pc: ReaderPc) {
    pc.EndedTook? || pc.EndedSawClosed? || pc.EndedExtra?
  }

  /** A call waits with its entry in, and every other thread is done: nobody is left to answer it. */
  ghost predicate Stranded(s: State, o: nat, c: nat) {
    && o in s.openers && s.openers[o].Opened?
    && (forall r :: r in s.readers ==> Ended(s.readers[r]))
    && (forall k :: k in s.closers ==> s.closers[k].Finished?)
    && c in s.calls && s.calls[c].pc.Waiting? && s.sh.Owns(c)
  }

  /** The extra-data branch, which strands calls of its own, is not taken. */
  ghost predicate NoExtra(actions: seq<Action>) {
    forall a :: a in actions ==> !(a.ByReader? && a.readerStep.FailExtra?)
  }

  ghost predicate CanStrand(s: State, o: nat) {
    exists more, t, c :: Run(s, more) == Some(t) && OneOpener(more, o) && NoExtra(more) && Stranded(t, o, c)
  }

  ghost predicate PastCheck(s: State, c: nat) {
    c in s.calls && s.calls[c].pc.Checked? && s.calls[c].frame.Ok?
  }

  ghost predicate OwnerInserted(s: State, c: nat) {
    c in s.calls && s.calls[c].pc.Inserted? && s.calls[c].frame.Ok? && s.sh.Owns(c)
  }

  /** Looked at just after the open put the writer in place: the flag is up, every close has had its take, and a call is
      past its closed check, or, with every close finished, has its entry in already. */
  ghost predicate AtRisk(s: State) {
    && s.sh.closed
    && (forall k :: k in s.closers ==> !s.closers[k].Stored?)
    && ((exists c :: PastCheck(s, c))
        || ((forall k :: k in s.closers ==> s.closers[k].Finished?) && exists c :: OwnerInserted(s, c)))
  }

  /** Just after the connect: sound, a writer, its reader still to be spawned, nobody waiting. */
  ghost predicate JustConnected(s: State, o: nat) {
    && Sound(s, o) && o in s.openers && s.openers[o].Spawning? && s.sh.writer.Some? && s.readers == map[]
    && forall c :: c in s.calls ==> !s.calls[c].pc.Waiting?
  }

  /** For every run up to the open's connect: it can go on to strand a call exactly when it is at risk there. */
  lemma StrandsExactly(actions: seq<Action>, o: nat, stream: nat, s: State)
    requires OneOpener(actions, o) && Run(FRESH, actions + [ByOpener(o, Connect(stream))]) == Some(s)
    ensures CanStrand(s, o) <==> AtRisk(s)
  {
    ConnectIsSound(actions, o, stream, s);
    if AtRisk(s) {
      RiskStrands(s, o);
    } else {
      forall more, t, c | Run(s, more) == Some(t) && OneOpener(more, o) && NoExtra(more) ensures !Stranded(t, o, c) {
        NoRiskIsSafe(s, o, more, c);
      }
    }
  }

  /** The same with the extra-data branch allowed, which needs no raised flag. */
  ghost predicate AtAnyRisk(s: State) {
    && (forall k :: k in s.closers ==> !s.closers[k].Stored?)
    && (!s.sh.closed || AtRisk(s))
  }

  ghost predicate CanStrandAnyhow(s: State, o: nat) {
    exists more, t, c :: Run(s, more) == Some(t) && OneOpener(more, o) && Stranded(t, o, c)
  }

  /** With every step allowed, a run can go on to strand a call exactly when just after the connect every close has
      had its take, and the flag is down or the run is at risk there. */
  lemma StrandsAnyhowExactly(actions: seq<Action>, o: nat, stream: nat, s: State)
    requires OneOpener(actions, o) && Run(FRESH, actions + [ByOpener(o, Connect(stream))]) == Some(s)
    ensures CanStrandAnyhow(s, o) <==> AtAnyRisk(s)
  {
    ConnectIsSound(actions, o, stream, s);
    if AtAnyRisk(s) {
      if AtRisk(s) {
        RiskStrands(s, o);
      } else {
        ExtraStrands(s, o);
      }
    } else {
      forall more, t, c | Run(s, more) == Some(t) && OneOpener(more, o) ensures !Stranded(t, o, c) {
        NoRiskAtAll(s, o, more, c);
      }
    }
  }

  lemma ConnectIsSound(actions: seq<Action>, o: nat, stream: nat, s: State)
    requires OneOpener(actions, o) && Run(FRESH, actions + [ByOpener(o, Connect(stream))]) == Some(s)
    ensures JustConnected(s, o)
  {
    var connect := ByOpener(o, Connect(stream));
    var u := Run(FRESH, actions).value;
    RunStep(FRESH, actions, connect);
    FreshIsSound(o);
    RunIsSound(FRESH, o, actions);
    StepIsSound(u, o, connect, s);
  }

  lemma StepIsSound(u: State, o: nat, a: Action, s: State)
    requires Sound(u, o) && Connects(a) && a.opener == o && Next(u, a) == Some(s)
    ensures JustConnected(s, o)
  {
    StepKeepsSound(u, o, a);
  }

  // ---------------------------------------------------------------- without the risk nobody is stranded

  ghost predicate SomeStored(s: State) {
    exists k :: k in s.closers && s.closers[k].Stored?
  }

  ghost predicate SomeTook(s: State) {
    exists k :: k in s.closers && s.closers[k].Took?
  }

  /** As long as there is a writer the flag is down or a close has still to take; where there is none, everyone was
      told, or a close has still to tell them. */
  ghost predicate Guarded(s: State) {
    && (s.sh.writer.None? || !s.sh.closed || SomeStored(s))
    && (s.sh.writer.None? ==> Quiet(s) || SomeTook(s))
  }

  /** The flag is up for good, no call is past its check, and no call that may wait owns an entry, or a close has
      still to tell it. */
  ghost predicate Shut(s: State) {
    s.sh.closed && NonePastCheck(s) && (NoOwner(s) || SomeTook(s))
  }

  /** The opener has a reader running or still to spawn, and a reader that saw the flag up saw it up for good. */
  ghost predicate ReaderStarted(s: State, o: nat) {
    && o in s.openers && (s.openers[o].Spawning? || (s.openers[o].Opened? && s.readers != map[]))
    && (forall r :: r in s.readers && s.readers[r].EndedSawClosed? ==> s.sh.closed)
  }

  ghost predicate Calm(s: State, o: nat) {
    Sound(s, o) && ReaderStarted(s, o) && (Guarded(s) || Shut(s))
  }

  lemma ConnectedUnlessUn(s: State, o: nat)
    requires ReaderStarted(s, o)
    ensures !Unconnected(s, o)
  {
  }

  lemma JustCalm(s: State, o: nat)
    requires JustConnected(s, o) && !AtRisk(s)
    ensures Calm(s, o)
  {
    if s.sh.closed && !SomeStored(s) {
      ShutUnlessRisk(s, o);
    }
  }

  lemma ShutUnlessRisk(s: State, o: nat)
    requires JustConnected(s, o) && !AtRisk(s) && s.sh.closed && !SomeStored(s)
    ensures Shut(s)
  {
    assert NonePastCheck(s);
    if forall k :: k in s.closers ==> s.closers[k].Finished? {
      forall c | MayWait(s, c) ensures !s.sh.Owns(c) {
        assert !OwnerInserted(s, c);
      }
    } else {
      var k :| k in s.closers && !s.closers[k].Finished?;
      assert s.closers[k].Took?;
    }
  }

  lemma StepKeepsStarted(s: State, o: nat, a: Action)
    requires Inv(s) && ReaderStarted(s, o) && Next(s, a).Some? && (a.ByOpener? ==> a.opener == o)
    ensures ReaderStarted(Next(s, a).value, o)
    ensures s.sh.closed ==> Next(s, a).value.sh.closed
  {
    ConnectedUnlessUn(s, o);
    StaysConnected(s, o, a);
    match a {
      case Begin(_, _) =>
      case ByCall(c, step) => CallEffects(s, c, step);
      case ByReader(r, step) => ReaderEffects(s, r, step);
      case ByCloser(k, step) => CloserEffects(s, k, step);
      case ByOpener(_, step) =>
        assert step.Spawn? && s.openers[o].stream in Next(s, a).value.readers;
    }
  }

  // What a step does to the closers that have still to take or to tell.

  lemma StoredOrTook(s: State, a: Action, k: nat)
    requires Next(s, a).Some? && k in s.closers && !s.closers[k].Finished? && a != ByCloser(k, TakeStream)
    requires a != ByCloser(k, WakeAll)
    ensures k in Next(s, a).value.closers && Next(s, a).value.closers[k] == s.closers[k]
  {
    if a.ByCall? {
      CallEffects(s, a.call, a.callStep);
    }
  }

  lemma WakeEmpties(s: State, k: nat)
    requires NextCloser(s, k, WakeAll).Some?
    ensures NextCloser(s, k, WakeAll).value.sh.pending == map[]
    ensures NextCloser(s, k, WakeAll).value.sh.writer == s.sh.writer
  {
  }

  lemma TakeTakes(s: State, k: nat)
    requires NextCloser(s, k, TakeStream).Some?
    ensures NextCloser(s, k, TakeStream).value.sh.writer.None? && SomeTook(NextCloser(s, k, TakeStream).value)
    ensures k in NextCloser(s, k, TakeStream).value.closers && NextCloser(s, k, TakeStream).value.closers[k].Took?
  {
    assert NextCloser(s, k, TakeStream).value.closers[k].Took?;
  }

  lemma StoreIsStored(s: State, k: nat)
    requires NextCloser(s, k, StoreClosed).Some?
    ensures SomeStored(NextCloser(s, k, StoreClosed).value)
  {
    assert NextCloser(s, k, StoreClosed).value.closers[k].Stored?;
  }

  /** A writer that is gone stays gone; one that goes was taken by a reader that told everyone, or by a closer that is
      about to. */
  lemma WriterGoes(s: State, o: nat, a: Action)
    requires Inv(s) && !Unconnected(s, o) && Next(s, a).Some? && (a.ByOpener? ==> a.opener == o)
    ensures var t := Next(s, a).value;
            && (s.sh.writer.None? ==> t.sh.writer.None?)
            && (s.sh.writer.Some? && t.sh.writer.None? ==> Quiet(t) || SomeTook(t))
            && (s.sh.writer.Some? && t.sh.writer.Some? && !s.sh.closed && t.sh.closed ==> SomeStored(t))
  {
    var t := Next(s, a).value;
    StaysConnected(s, o, a);
    match a {
      case Begin(_, _) =>
      case ByCall(c, step) => CallEffects(s, c, step);
      case ByReader(r, step) =>
        ReaderEffects(s, r, step);
        if s.sh.writer.Some? && t.sh.writer.None? {
          TookReader(s, t, r);
        }
      case ByCloser(k, step) =>
        match step {
          case StoreClosed => StoreIsStored(s, k);
          case TakeStream => TakeTakes(s, k);
          case WakeAll => WakeEmpties(s, k);
        }
      case ByOpener(_, step) => OpenerEffects(s, o, step);
    }
  }

  lemma TookReader(s: State, t: State, r: nat)
    requires ReaderOnly(s, t, r) && s.sh.writer.Some? && t.sh.writer.None?
    requires s.readers[r].EndedTook? ==> Quiet(s)
    ensures Quiet(t)
  {
    NothingPendingIsQuiet(t);
  }

  lemma StepKeepsGuarded(s: State, o: nat, a: Action)
    requires Sound(s, o) && Guarded(s) && !Unconnected(s, o)
    requires Next(s, a).Some? && (a.ByOpener? ==> a.opener == o)
    ensures Guarded(Next(s, a).value)
  {
    WriterGoes(s, o, a);
    StaysConnected(s, o, a);
    if s.sh.writer.None? {
      NoWriterStaysTold(s, a);
    } else if SomeStored(s) {
      var k :| k in s.closers && s.closers[k].Stored?;
      if a == ByCloser(k, TakeStream) {
        TakeTakes(s, k);
      } else {
        StoredOrTook(s, a, k);
      }
    }
  }

  lemma NoWriterStaysTold(s: State, a: Action)
    requires Inv(s) && s.sh.writer.None? && (Quiet(s) || SomeTook(s)) && Next(s, a).Some? && !Connects(a)
    ensures Quiet(Next(s, a).value) || SomeTook(Next(s, a).value)
  {
    if Quiet(s) {
      StepKeepsQuiet(s, a);
    } else {
      var k :| k in s.closers && s.closers[k].Took?;
      if a == ByCloser(k, WakeAll) {
        WakeEmpties(s, k);
        NothingPendingIsQuiet(Next(s, a).value);
      } else {
        StoredOrTook(s, a, k);
      }
    }
  }

  lemma StepKeepsShut(s: State, o: nat, a: Action)
    requires Sound(s, o) && Shut(s) && !Unconnected(s, o)
    requires Next(s, a).Some? && (a.ByOpener? ==> a.opener == o)
    ensures Shut(Next(s, a).value)
  {
    StepKeepsFlag(s, o, a);
    if NoOwner(s) {
      StepKeepsNoOwner(s, a);
    } else {
      var k :| k in s.closers && s.closers[k].Took?;
      if a == ByCloser(k, WakeAll) {
        WakeEmpties(s, k);
        EmptyHasNoOwner(Next(s, a).value);
      } else {
        StoredOrTook(s, a, k);
      }
    }
  }

  lemma {:induction false} RunKeepsCalm(s: State, o: nat, more: seq<Action>)
    requires Calm(s, o) && Run(s, more).Some? && OneOpener(more, o)
    ensures Calm(Run(s, more).value, o)
    decreases |more|
  {
    if more != [] {
      var before, last := more[..|more| - 1], more[|more| - 1];
      var t := Run(s, before).value;
      RunKeepsCalm(s, o, before);
      ConnectedUnlessUn(t, o);
      StepKeepsSound(t, o, last);
      StepKeepsStarted(t, o, last);
      if Guarded(t) {
        StepKeepsGuarded(t, o, last);
      } else {
        StepKeepsShut(t, o, last);
      }
    }
  }

  // With the extra-data branch allowed: a close that has still to take, or a flag that is up for good.

  ghost predicate ToTake(s: State) {
    (s.sh.writer.None? || SomeStored(s)) && (s.sh.writer.None? ==> Quiet(s) || SomeTook(s))
  }

  lemma StepKeepsToTake(s: State, o: nat, a: Action)
    requires Sound(s, o) && ToTake(s) && !Unconnected(s, o)
    requires Next(s, a).Some? && (a.ByOpener? ==> a.opener == o)
    ensures ToTake(Next(s, a).value)
  {
    WriterGoes(s, o, a);
    StaysConnected(s, o, a);
    if s.sh.writer.None? {
      NoWriterStaysTold(s, a);
    } else {
      var k :| k in s.closers && s.closers[k].Stored?;
      if a == ByCloser(k, TakeStream) {
        TakeTakes(s, k);
      } else {
        StoredOrTook(s, a, k);
      }
    }
  }

  lemma {:induction false} RunKeepsEither(s: State, o: nat, more: seq<Action>)
    requires Sound(s, o) && !Unconnected(s, o) && (ToTake(s) || Shut(s)) && Run(s, more).Some? && OneOpener(more, o)
    ensures ToTake(Run(s, more).value) || Shut(Run(s, more).value)
    decreases |more|
  {
    if more != [] {
      var before, last := more[..|more| - 1], more[|more| - 1];
      var t := Run(s, before).value;
      RunKeepsEither(s, o, before);
      RunIsSound(s, o, before);
      if ToTake(t) {
        StepKeepsToTake(t, o, last);
      } else {
        StepKeepsShut(t, o, last);
      }
    }
  }

  lemma NoRiskAtAll(s: State, o: nat, more: seq<Action>, c: nat)
    requires JustConnected(s, o) && !AtAnyRisk(s) && Run(s, more).Some? && OneOpener(more, o)
    ensures !Stranded(Run(s, more).value, o, c)
  {
    if !SomeStored(s) {
      ShutUnlessRisk(s, o);
    }
    RunKeepsEither(s, o, more);
    var t := Run(s, more).value;
    assert Stranded(t, o, c) ==> MayWait(t, c);
  }

  ghost predicate NoneExtra(s: State) {
    forall r :: r in s.readers ==> !s.readers[r].EndedExtra?
  }

  lemma {:induction false} RunHasNoExtra(s: State, more: seq<Action>)
    requires Inv(s) && NoneExtra(s) && Run(s, more).Some? && NoExtra(more)
    ensures NoneExtra(Run(s, more).value)
    decreases |more|
  {
    if more != [] {
      var before, last := more[..|more| - 1], more[|more| - 1];
      RunHasNoExtra(s, before);
      RunKeepsInv(s, before);
      StepHasNoExtra(Run(s, before).value, last);
    }
  }

  lemma StepHasNoExtra(s: State, a: Action)
    requires Inv(s) && NoneExtra(s) && Next(s, a).Some? && !(a.ByReader? && a.readerStep.FailExtra?)
    ensures NoneExtra(Next(s, a).value)
  {
    match a {
      case Begin(_, _) =>
      case ByCall(c, step) => CallEffects(s, c, step);
      case ByReader(r, step) => ReaderHasNoExtra(s, r, step);
      case ByCloser(k, step) => CloserEffects(s, k, step);
      case ByOpener(o, step) =>
        if !step.Connect? {
          OpenerEffects(s, o, step);
        }
    }
  }

  lemma ReaderHasNoExtra(s: State, r: nat, a: ReaderStep)
    requires NoneExtra(s) && NextReader(s, r, a).Some? && !a.FailExtra?
    ensures NoneExtra(NextReader(s, r, a).value)
  {
  }

  lemma NoRiskIsSafe(s: State, o: nat, more: seq<Action>, c: nat)
    requires JustConnected(s, o) && !AtRisk(s) && Run(s, more).Some? && OneOpener(more, o) && NoExtra(more)
    ensures !Stranded(Run(s, more).value, o, c)
  {
    JustCalm(s, o);
    RunKeepsCalm(s, o, more);
    RunHasNoExtra(s, more);
    CalmIsNotStranded(Run(s, more).value, o, c);
  }

  lemma CalmIsNotStranded(s: State, o: nat, c: nat)
    requires Calm(s, o) && NoneExtra(s)
    ensures !Stranded(s, o, c)
  {
    assert Stranded(s, o, c) ==> MayWait(s, c) && s.readers != map[];
    if r :| r in s.readers {
      assert Ended(s.readers[r]) ==> s.readers[r].EndedTook? || s.readers[r].EndedSawClosed?;
    }
  }

  ghost predicate MayWait(s: State, c: nat) {
    c in s.calls && (s.calls[c].pc.Waiting? || (s.calls[c].pc.Inserted? && s.calls[c].frame.Ok?))
  }

  ghost predicate NoOwner(s: State) {
    forall c :: MayWait(s, c) ==> !s.sh.Owns(c)
  }

  /** No step of a call leads to its check; those that may wait could wait before. */
  lemma CallMoves(s: State, c: nat, a: CallStep)
    requires NextCall(s, c, a).Some? && !PastCheck(s, c)
    ensures var t := NextCall(s, c, a).value;
            !PastCheck(t, c) && !a.Insert? && (MayWait(t, c) ==> MayWait(s, c))
  {
  }

  lemma CallKeepsNoOwner(s: State, c: nat, a: CallStep)
    requires Inv(s) && NextCall(s, c, a).Some? && !PastCheck(s, c) && NoOwner(s)
    ensures NoOwner(NextCall(s, c, a).value)
  {
    var t := NextCall(s, c, a).value;
    CallMoves(s, c, a);
    CallEffect(s, c, a);
    forall d | MayWait(t, d) ensures !t.sh.Owns(d) {
      assert MayWait(s, d) && !s.sh.Owns(d);
    }
  }

  lemma AnswersKeepNoOwner(s: State, t: State)
    requires Inv(s) && NoOwner(s) && Answers(s.sh, t.sh) && t.calls == s.calls
    ensures NoOwner(t)
  {
    forall d | MayWait(t, d) ensures !t.sh.Owns(d) {
      assert MayWait(s, d) && CallOk(s, d) && Answered(s.sh, t.sh, d);
    }
  }

  lemma StepKeepsNoOwner(s: State, a: Action)
    requires Inv(s) && NoOwner(s) && Next(s, a).Some? && NonePastCheck(s)
    ensures NoOwner(Next(s, a).value)
  {
    var t := Next(s, a).value;
    match a {
      case Begin(c, _) =>
        forall d | MayWait(t, d) ensures !t.sh.Owns(d) {
          assert MayWait(s, d);
        }
      case ByCall(c, step) =>
        assert !PastCheck(s, c);
        CallKeepsNoOwner(s, c, step);
      case _ =>
        OthersAnswer(s, a);
        AnswersKeepNoOwner(s, t);
    }
  }

  lemma EmptyHasNoOwner(s: State)
    requires s.sh.pending == map[]
    ensures NoOwner(s)
  {
  }

  ghost predicate NonePastCheck(s: State) {
    forall c :: !PastCheck(s, c)
  }

  lemma SameCallsPastCheck(s: State, t: State)
    requires NonePastCheck(s) && t.calls == s.calls
    ensures NonePastCheck(t)
  {
    forall c ensures !PastCheck(t, c) {
      assert !PastCheck(s, c);
    }
  }

  lemma OneCallPastCheck(s: State, t: State, c: nat)
    requires NonePastCheck(s) && c in t.calls && t.calls == s.calls[c := t.calls[c]] && !PastCheck(t, c)
    ensures NonePastCheck(t)
  {
    forall d ensures !PastCheck(t, d) {
      assert !PastCheck(s, d);
    }
  }

  lemma StepKeepsFlag(s: State, o: nat, a: Action)
    requires s.sh.closed && !Unconnected(s, o) && Inv(s) && Next(s, a).Some? && (a.ByOpener? ==> a.opener == o)
    requires NonePastCheck(s)
    ensures Next(s, a).value.sh.closed && NonePastCheck(Next(s, a).value)
  {
    var t := Next(s, a).value;
    match a {
      case Begin(c, command) => OneCallPastCheck(s, t, c);
      case ByCall(c, step) =>
        CallEffects(s, c, step);
        assert !PastCheck(s, c);
        CallMoves(s, c, step);
        CallsUpdate(s, c, step);
        OneCallPastCheck(s, t, c);
      case ByReader(r, step) =>
        ReaderEffects(s, r, step);
        SameCallsPastCheck(s, t);
      case ByCloser(k, step) =>
        CloserEffects(s, k, step);
        SameCallsPastCheck(s, t);
      case ByOpener(_, step) =>
        StaysConnected(s, o, a);
        OpenerEffects(s, o, step);
        SameCallsPastCheck(s, t);
    }
  }

  // ---------------------------------------------------------------- with the risk somebody can be

  lemma {:induction false} Unused(used: set<nat>) returns (n: nat)
    ensures forall m :: m in used ==> m < n
  {
    if used == {} {
      n := 0;
    } else {
      var m :| m in used;
      n := Unused(used - {m});
      n := if m < n then n else m + 1;
      assert forall k :: k in used ==> k == m || k in used - {m};
    }
  }

  /** The same but for the closers and what they tell. */
  ghost predicate SameBut(s: State, t: State) {
    && t.calls == s.calls && t.readers == s.readers && t.openers == s.openers
    && t.writerLock == s.writerLock && t.pendingLock == s.pendingLock
    && t.sh.writer == s.sh.writer && t.sh.closed == s.sh.closed
  }

  ghost function TookOnes(s: State): set<nat> {
    set k | k in s.closers && s.closers[k].Took?
  }

  /** The closes past their take run to their end, one after the other. */
  lemma {:induction false} FinishCloses(s: State) returns (more: seq<Action>, t: State)
    requires s.pendingLock.None? && forall k :: k in s.closers ==> !s.closers[k].Stored?
    ensures Run(s, more) == Some(t) && (forall a :: a in more ==> a.ByCloser?) && SameBut(s, t)
    ensures forall k :: k in t.closers ==> t.closers[k].Finished?
    ensures (forall k :: k in s.closers ==> s.closers[k].Finished?) ==> t == s
    decreases |TookOnes(s)|
  {
    more, t := [], s;
    if k :| k in TookOnes(s) {
      var wake := ByCloser(k, WakeAll);
      var u := FinishOne(s, k);
      var later;
      later, t := FinishCloses(u);
      OneStep(s, wake, u);
      RunOn(s, [wake], later);
      more := [wake] + later;
    } else {
      assert forall j :: j in s.closers && s.closers[j].Took? ==> j in TookOnes(s);
    }
  }

  lemma FinishOne(s: State, k: nat) returns (u: State)
    requires s.pendingLock.None? && k in s.closers && s.closers[k].Took?
    requires forall j :: j in s.closers ==> !s.closers[j].Stored?
    ensures Next(s, ByCloser(k, WakeAll)) == Some(u) && SameBut(s, u)
    ensures forall j :: j in u.closers ==> !u.closers[j].Stored?
    ensures |TookOnes(u)| < |TookOnes(s)|
  {
    u := NextCloser(s, k, WakeAll).value;
    assert TookOnes(u) == TookOnes(s) - {k};
  }

  lemma OneStep(s: State, a: Action, t: State)
    requires Next(s, a) == Some(t)
    ensures Run(s, [a]) == Some(t)
  {
    RunStep(s, [], a);
    assert [] + [a] == [a];
  }

  /** A call past its check, or with its entry in, comes to wait for an answer. */
  lemma ComesToWait(s: State, c: nat) returns (more: seq<Action>, t: State)
    requires PastCheck(s, c) || OwnerInserted(s, c)
    requires Inv(s) && s.sh.writer.Some? && s.writerLock.None? && s.pendingLock.None?
    ensures Run(s, more) == Some(t) && forall a :: a in more ==> a.ByCall?
    ensures t.readers == s.readers && t.closers == s.closers && t.openers == s.openers
    ensures t.sh.writer == s.sh.writer && t.sh.closed == s.sh.closed && t.writerLock.None? && t.pendingLock.None?
    ensures c in t.calls && t.calls[c].pc.Waiting? && t.sh.Owns(c)
  {
    if PastCheck(s, c) {
      var middle;
      middle, t := InsertAndWrite(s, c);
      more := [ByCall(c, Insert), ByCall(c, Write(None))];
      TwoSteps(s, ByCall(c, Insert), middle, ByCall(c, Write(None)), t);
    } else {
      t := JustWrite(s, c);
      more := [ByCall(c, Write(None))];
      OneStep(s, ByCall(c, Write(None)), t);
    }
  }

  lemma JustWrite(s: State, c: nat) returns (t: State)
    requires OwnerInserted(s, c) && s.sh.writer.Some? && s.writerLock.None?
    ensures NextCall(s, c, Write(None)) == Some(t)
    ensures t.readers == s.readers && t.closers == s.closers && t.openers == s.openers
    ensures t.sh.writer == s.sh.writer && t.sh.closed == s.sh.closed
    ensures t.writerLock == s.writerLock && t.pendingLock == s.pendingLock
    ensures c in t.calls && t.calls[c].pc.Waiting? && t.sh.Owns(c)
  {
    var sh := WriteBytes(s.sh, s.calls[c].frame.value);
    t := Move(s.(sh := sh, order := s.order + [c]), c, Waiting);
  }

  /** The reader is spawned, finds the stream gone and the flag up, and ends. */
  lemma SpawnAndFail(s: State, o: nat) returns (more: seq<Action>, t: State)
    requires o in s.openers && s.openers[o].Spawning? && s.readers == map[] && s.sh.closed
    ensures Run(s, more) == Some(t) && OneOpener(more, o) && NoExtra(more)
    ensures t.calls == s.calls && t.closers == s.closers && t.sh == s.sh
    ensures o in t.openers && t.openers[o].Opened? && t.readers == map[s.openers[o].stream := EndedSawClosed]
  {
    var r := s.openers[o].stream;
    var u := s.(readers := map[r := Reading], openers := s.openers[o := Opened]);
    t := u.(readers := map[r := EndedSawClosed]);
    assert map[r := Reading][r := EndedSawClosed] == map[r := EndedSawClosed];
    more := [ByOpener(o, Spawn), ByReader(r, FailHeader)];
    TwoSteps(s, ByOpener(o, Spawn), u, ByReader(r, FailHeader), t);
  }

  lemma RiskStrands(s: State, o: nat)
    requires JustConnected(s, o) && AtRisk(s)
    ensures CanStrand(s, o)
  {
    var c := AtRiskCall(s);
    var closing, u := FinishCloses(s);
    RunKeepsInv(s, closing);
    var calling, v := ComesToWait(u, c);
    var ending, t := SpawnAndFail(v, o);
    ThreeRuns(s, closing, u, calling, v, ending, t);
    Witness(s, o, closing + calling + ending, t, c);
  }

  /** The reader is spawned and ends by the extra-data branch. */
  lemma SpawnAndDrain(s: State, o: nat) returns (more: seq<Action>, t: State)
    requires o in s.openers && s.openers[o].Spawning? && s.readers == map[] && s.pendingLock.None?
    ensures Run(s, more) == Some(t) && OneOpener(more, o)
    ensures t.calls == s.calls && t.closers == s.closers && t.writerLock == s.writerLock && t.pendingLock.None?
    ensures t.sh.writer == s.sh.writer && t.sh.closed == s.sh.closed
    ensures o in t.openers && t.openers[o].Opened? && t.readers == map[s.openers[o].stream := EndedExtra]
  {
    var r := s.openers[o].stream;
    var u := s.(readers := map[r := Reading], openers := s.openers[o := Opened]);
    t := u.(sh := DrainPending(u.sh, Closed), readers := map[r := EndedExtra]);
    assert map[r := Reading][r := EndedExtra] == map[r := EndedExtra];
    more := [ByOpener(o, Spawn), ByReader(r, FailExtra)];
    TwoSteps(s, ByOpener(o, Spawn), u, ByReader(r, FailExtra), t);
  }

  lemma ExtraStrands(s: State, o: nat)
    requires JustConnected(s, o) && !s.sh.closed && forall k :: k in s.closers ==> !s.closers[k].Stored?
    ensures CanStrandAnyhow(s, o)
  {
    var closing, u := FinishCloses(s);
    var ending, v := SpawnAndDrain(u, o);
    var c := Unused(v.calls.Keys);
    PingEncodes();
    var calling, t := CallGoesOut(v, c, Ping(Zeros(16)));
    ThreeRuns(s, closing, u, ending, v, calling, t);
    var more := closing + ending + calling;
    assert OneOpener(more, o) && Stranded(t, o, c);
  }

  lemma PingEncodes()
    ensures FrameOf(Ping(Zeros(16))).Ok?
  {
  }

  lemma ThreeRuns(s: State, a: seq<Action>, t: State, b: seq<Action>, u: State, c: seq<Action>, v: State)
    requires Run(s, a) == Some(t) && Run(t, b) == Some(u) && Run(u, c) == Some(v)
    ensures Run(s, a + b + c) == Some(v)
  {
    RunOn(s, a, b);
    RunOn(s, a + b, c);
  }

  /** The call at risk; it is past its check unless every close has finished. */
  lemma AtRiskCall(s: State) returns (c: nat)
    requires AtRisk(s)
    ensures PastCheck(s, c) || (OwnerInserted(s, c) && forall k :: k in s.closers ==> s.closers[k].Finished?)
  {
    if d :| PastCheck(s, d) {
      c := d;
    } else {
      c :| OwnerInserted(s, c);
    }
  }

  lemma Witness(s: State, o: nat, more: seq<Action>, t: State, c: nat)
    requires Run(s, more) == Some(t) && OneOpener(more, o) && NoExtra(more) && Stranded(t, o, c)
    ensures CanStrand(s, o)
  {
  }

  /** Past the closed check, a call that meets an open connection gets to wait for its answer. */
  lemma InsertAndWrite(s: State, c: nat) returns (middle: State, t: State)
    requires c in s.calls && s.calls[c].pc.Checked? && s.calls[c].frame.Ok?
    requires s.sh.writer.Some? && s.writerLock.None? && s.pendingLock.None?
    ensures NextCall(s, c, Insert) == Some(middle) && NextCall(middle, c, Write(None)) == Some(t)
    ensures t.readers == s.readers && t.closers == s.closers && t.openers == s.openers
    ensures t.sh.writer == s.sh.writer && t.sh.closed == s.sh.closed
    ensures c in t.calls && t.calls[c].pc.Waiting? && t.sh.Owns(c) && t.sh.Empty(c)
  {
    middle := Move(s.(sh := InsertPending(s.sh, c, s.calls[c].id)), c, Inserted);
    t := Move(middle.(sh := WriteBytes(middle.sh, s.calls[c].frame.value), order := middle.order + [c]), c, Waiting);
  }

  /** The same from the very beginning of a call. */
  lemma CallGoesOut(s: State, c: nat, command: Command) returns (actions: seq<Action>, t: State)
    requires !s.sh.closed && s.sh.writer.Some? && s.writerLock.None? && s.pendingLock.None?
    requires c !in s.calls && FrameOf(command).Ok?
    ensures Run(s, actions) == Some(t) && forall a :: a in actions ==> !a.ByOpener?
    ensures t.readers == s.readers && t.closers == s.closers && t.openers == s.openers
    ensures c in t.calls && t.calls[c].pc.Waiting? && t.sh.Owns(c) && t.sh.Empty(c)
  {
    var begin := Begin(c, command);
    var begun := NextBegin(s, c, command).value;
    var middle;
    middle, t := InsertAndWrite(begun, c);
    TwoSteps(begun, ByCall(c, Insert), middle, ByCall(c, Write(None)), t);
    RunStep(s, [], begin);
    RunOn(s, [] + [begin], [ByCall(c, Insert), ByCall(c, Write(None))]);
    actions := [] + [begin] + [ByCall(c, Insert), ByCall(c, Write(None))];
  }

  /** One such run, with one open, one close and one call: the close runs while the open is connecting, the reader then
      meets a raised flag and ends without waking anyone, and the call is left to run out its time. */
  lemma CloseOvertakesOpen(command: Command) returns (actions: seq<Action>, s: State)
    requires FrameOf(command).Ok?
    ensures Run(FRESH, actions) == Some(s) && OneOpener(actions, 0) && NoExtra(actions)
    ensures s.closers == map[0 := Finished] && s.readers == map[0 := EndedSawClosed] && s.openers == map[0 := Opened]
    ensures s.sh.writer.Some? && NextCall(s, 0, Expire).Some?
    ensures Stranded(s, 0, 0)
  {
    var early, u := CloseWhileConnecting(command);
    var late, v := ConnectAfterClose(u);
    var last;
    last, s := WaitThenFail(v);
    RunOn(FRESH, early, late);
    RunOn(FRESH, early + late, last);
    actions := early + late + last;
  }

  /** A call past its check goes out, and then the reader finds the stream gone and the flag up. */
  lemma WaitThenFail(s: State) returns (actions: seq<Action>, t: State)
    requires 0 in s.calls && s.calls[0].pc.Checked? && s.calls[0].frame.Ok? && s.readers == map[0 := Reading]
    requires s.sh.closed && s.sh.writer.Some? && s.writerLock.None? && s.pendingLock.None?
    ensures Run(s, actions) == Some(t) && OneOpener(actions, 0) && NoExtra(actions)
    ensures t.closers == s.closers && t.openers == s.openers && t.readers == map[0 := EndedSawClosed]
    ensures t.sh.writer.Some? && 0 in t.calls && t.calls[0].pc.Waiting? && t.sh.Owns(0)
    ensures NextCall(t, 0, Expire).Some?
  {
    var middle, u := InsertAndWrite(s, 0);
    var insert, write, fail := ByCall(0, Insert), ByCall(0, Write(None)), ByReader(0, FailHeader);
    TwoSteps(s, insert, middle, write, u);
    t := ReaderSeesFlag(u);
    RunStep(s, [insert, write], fail);
    actions := [insert, write] + [fail];
    WaitCanExpire(t, 0);
  }

  lemma ReaderSeesFlag(s: State) returns (t: State)
    requires s.readers == map[0 := Reading] && s.sh.closed
    ensures Next(s, ByReader(0, FailHeader)) == Some(t) && t == s.(readers := map[0 := EndedSawClosed])
  {
    t := NextReader(s, 0, FailHeader).value;
  }

  lemma WaitCanExpire(s: State, c: nat)
    requires c in s.calls && s.calls[c].pc.Waiting? && s.sh.Empty(c) && s.sh.Owns(c)
    ensures NextCall(s, c, Expire).Some?
  {
  }

  lemma TwoSteps(s: State, a: Action, t: State, b: Action, u: State)
    requires Next(s, a) == Some(t) && Next(t, b) == Some(u)
    ensures Run(s, [a, b]) == Some(u)
  {
    RunStep(s, [], a);
    RunStep(s, [a], b);
    assert [] + [a] == [a] && [a] + [b] == [a, b];
  }

  /** The state after these steps: connecting, a call past its check, and a close that found nothing to take. */
  ghost function Overtaken(command: Command): State {
    FRESH.(sh := FRESH.sh.(closed := true), openers := map[0 := Connecting], closers := map[0 := Finished],
           calls := map[0 := Call(command, command.RequestId(), FrameOf(command), Checked)])
  }

  lemma CloseWhileConnecting(command: Command) returns (actions: seq<Action>, s: State)
    ensures Run(FRESH, actions) == Some(s) && OneOpener(actions, 0) && NoExtra(actions) && s == Overtaken(command)
  {
    var opens := [ByOpener(0, Look), ByOpener(0, ResetClosed)];
    var u := FRESH.(openers := map[0 := Connecting]);
    assert map[0 := MustConnect][0 := Connecting] == map[0 := Connecting];
    TwoSteps(FRESH, opens[0], FRESH.(openers := map[0 := MustConnect]), opens[1], u);
    var begun := NextBegin(u, 0, command).value;
    RunStep(FRESH, opens, Begin(0, command));
    var closes;
    closes, s := CloseInVain(begun);
    RunOn(FRESH, opens + [Begin(0, command)], closes);
    actions := opens + [Begin(0, command)] + closes;
  }

  /** A close with nothing to take and nobody to wake. */
  lemma CloseInVain(s: State) returns (actions: seq<Action>, t: State)
    requires s.closers == map[] && s.writerLock.None? && s.pendingLock.None? && s.sh.writer.None?
    requires s.sh.pending == map[] && s.sh.channels == map[]
    ensures Run(s, actions) == Some(t) && forall a :: a in actions ==> a.ByCloser?
    ensures t == s.(sh := s.sh.(closed := true), closers := map[0 := Finished])
  {
    var steps := [ByCloser(0, StoreClosed), ByCloser(0, TakeStream)];
    var u := s.(sh := s.sh.(closed := true), closers := map[0 := Took]);
    assert map[0 := Stored][0 := Took] == map[0 := Took];
    TwoSteps(s, steps[0], s.(sh := s.sh.(closed := true), closers := map[0 := Stored]), steps[1], u);
    assert DrainedTo(u.sh, Closed, map[]) == map[];
    t := NextCloser(u, 0, WakeAll).value;
    RunStep(s, steps, ByCloser(0, WakeAll));
    actions := steps + [ByCloser(0, WakeAll)];
  }

  lemma ConnectAfterClose(s: State) returns (actions: seq<Action>, t: State)
    requires s.openers == map[0 := Connecting] && s.writerLock.None? && s.readers == map[]
    ensures Run(s, actions) == Some(t) && OneOpener(actions, 0) && NoExtra(actions)
    ensures t.openers == map[0 := Opened] && t.readers == map[0 := Reading] && t.sh.writer.Some?
    ensures t.calls == s.calls && t.closers == s.closers && t.sh.closed == s.sh.closed
    ensures t.writerLock == s.writerLock && t.pendingLock == s.pendingLock
  {
    var connect, spawn := ByOpener(0, Connect(0)), ByOpener(0, Spawn);
    var u := Next(s, connect).value;
    t := Next(u, spawn).value;
    TwoSteps(s, connect, u, spawn, t);
    actions := [connect, spawn];
  }
}
