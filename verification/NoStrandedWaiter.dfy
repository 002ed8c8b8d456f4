/** A connection that is opened once leaves no waiter behind when it goes down. */
module NoStrandedWaiter {
  import opened Bytes
  import opened Protocol
  import opened Commands
  import opened ConnectionState
  import opened ConnectionRuns
  import opened ConnectionGuarantees
  import opened OneOpening
  import opened Overtaking

  // ---------------------------------------------------------------- how a connection goes down

  /** The connection went down: the reader finished its header-failure branch, or a close that took the writer after the
      open put it there ran to its end. A close that finished before that brought nothing down. */
  ghost predicate WentDown(actions: seq<Action>, s: State) {
    || (exists r :: r in s.readers && s.readers[r].EndedTook?)
    || (exists i, j :: TookAfterConnect(actions, i, j) && FinishedBy(s, actions[j].closer))
  }

  predicate TookAfterConnect(actions: seq<Action>, i: int, j: int) {
    0 <= i < j < |actions| && Connects(actions[i]) && Takes(actions[j])
  }

  predicate FinishedBy(s: State, k: nat) {
    k in s.closers && s.closers[k].Finished?
  }

  /** Whatever the interleaving of one `open`, the reader and any number of calls and closers, each begun before,
      during or after the open: when the connection is down, or was never up, a call that has yet to look at the
      writer will find none, a call that waits can finish at once with a message or a disconnect, two steps that need
      no mutex, and none can time out. */
  lemma NobodyIsStranded(actions: seq<Action>, o: nat, s: State, c: nat)
    requires Run(FRESH, actions) == Some(s) && OneOpener(actions, o)
    requires WentDown(actions, s) || forall a :: a in actions ==> !Connects(a)
    requires c in s.calls
    ensures s.sh.writer.None?
    ensures s.calls[c].pc.Waiting? ==> NextCall(s, c, Receive).Some? || NextCall(s, c, Disconnect).Some?
    ensures NextCall(s, c, Expire).None?
  {
    DownIsQuiet(actions, o, s);
    QuietCall(s, c);
  }

  lemma DownIsQuiet(actions: seq<Action>, o: nat, s: State)
    requires Run(FRESH, actions) == Some(s) && OneOpener(actions, o)
    requires WentDown(actions, s) || forall a :: a in actions ==> !Connects(a)
    ensures Inv(s) && Quiet(s)
  {
    FreshIsSound(o);
    RunIsSound(FRESH, o, actions);
    if forall a :: a in actions ==> !Connects(a) {
      RunKeepsQuiet(FRESH, actions);
    } else if i, j :| TookAfterConnect(actions, i, j) && FinishedBy(s, actions[j].closer) {
      TakenIsQuiet(actions, o, s, i, j);
    }
  }

  /** A run is its first part and then the rest. */
  lemma SplitRun(s: State, actions: seq<Action>, i: nat)
    requires i <= |actions| && Run(s, actions).Some?
    ensures Run(s, actions[..i]).Some? && Run(Run(s, actions[..i]).value, actions[i..]) == Run(s, actions)
  {
    assert actions == actions[..i] + actions[i..];
    RunOn(s, actions[..i], actions[i..]);
  }

  /** And its part before a step, the step, and the part after it. */
  lemma SplitStep(s: State, actions: seq<Action>, i: nat)
    requires i < |actions| && Run(s, actions).Some?
    ensures Run(s, actions[..i]).Some? && Next(Run(s, actions[..i]).value, actions[i]).Some?
    ensures Run(s, actions[..i + 1]) == Next(Run(s, actions[..i]).value, actions[i])
    ensures Run(Run(s, actions[..i + 1]).value, actions[i + 1..]) == Run(s, actions)
  {
    SplitRun(s, actions, i);
    SplitRun(s, actions, i + 1);
    assert actions[..i + 1] == actions[..i] + [actions[i]];
    RunStep(s, actions[..i], actions[i]);
  }

  lemma TakenIsQuiet(actions: seq<Action>, o: nat, s: State, i: nat, j: nat)
    requires Run(FRESH, actions) == Some(s) && OneOpener(actions, o) && TookAfterConnect(actions, i, j)
    requires FinishedBy(s, actions[j].closer)
    ensures Quiet(s)
  {
    var u := ConnectedBefore(actions, o, i, j);
    SplitStep(FRESH, actions, j);
    TakenFrom(u, o, actions[j].closer, actions[j + 1..]);
  }

  lemma TakenFrom(s: State, o: nat, k: nat, more: seq<Action>)
    requires Sound(s, o) && !Unconnected(s, o) && NextCloser(s, k, TakeStream).Some?
    requires Run(NextCloser(s, k, TakeStream).value, more).Some? && OneOpener(more, o)
    requires FinishedBy(Run(NextCloser(s, k, TakeStream).value, more).value, k)
    ensures Quiet(Run(NextCloser(s, k, TakeStream).value, more).value)
  {
    StepKeepsSound(s, o, ByCloser(k, TakeStream));
    TakeTakes(s, k);
    TookUntilQuiet(NextCloser(s, k, TakeStream).value, o, k, more);
  }

  /** Once the opener has connected it stays so. */
  lemma ConnectedBefore(actions: seq<Action>, o: nat, i: nat, j: nat) returns (u: State)
    requires Run(FRESH, actions).Some? && OneOpener(actions, o)
    requires i < j <= |actions| && Connects(actions[i])
    ensures Run(FRESH, actions[..j]) == Some(u) && Sound(u, o) && !Unconnected(u, o)
  {
    SplitRun(FRESH, actions, j);
    u := Run(FRESH, actions[..j]).value;
    var before := actions[..j];
    assert before[i] == actions[i];
    var t := AfterConnect(before, o, i);
    RunIsSound(t, o, before[i + 1..]);
  }

  /** The state just after the connect of a run, and the run from there. */
  lemma AfterConnect(actions: seq<Action>, o: nat, i: nat) returns (u: State)
    requires Run(FRESH, actions).Some? && OneOpener(actions, o) && i < |actions| && Connects(actions[i])
    ensures Run(FRESH, actions[..i + 1]) == Some(u) && JustConnected(u, o)
    ensures Run(u, actions[i + 1..]) == Run(FRESH, actions)
  {
    SplitStep(FRESH, actions, i);
    u := Run(FRESH, actions[..i + 1]).value;
    FreshIsSound(o);
    RunIsSound(FRESH, o, actions[..i]);
    assert actions[i] in actions;
    StepIsSound(Run(FRESH, actions[..i]).value, o, actions[i], u);
  }

  /** From its take to its end a closer has still to tell everyone; then it has. */
  lemma {:induction false} TookUntilQuiet(s: State, o: nat, k: nat, more: seq<Action>)
    requires Sound(s, o) && !Unconnected(s, o) && s.sh.writer.None? && k in s.closers && s.closers[k].Took?
    requires Run(s, more).Some? && OneOpener(more, o)
    ensures var t := Run(s, more).value;
            t.sh.writer.None? && (Quiet(t) || (k in t.closers && t.closers[k].Took?))
    decreases |more|
  {
    if more != [] {
      var before, last := more[..|more| - 1], more[|more| - 1];
      var t := Run(s, before).value;
      TookUntilQuiet(s, o, k, before);
      RunIsSound(s, o, before);
      WriterGoes(t, o, last);
      StaysConnected(t, o, last);
      if Quiet(t) {
        StepKeepsQuiet(t, last);
      } else if last == ByCloser(k, WakeAll) {
        WakeEmpties(t, k);
        NothingPendingIsQuiet(Run(s, more).value);
      } else {
        StoredOrTook(t, last, k);
      }
    }
  }

  lemma {:induction false} RunKeepsQuiet(s: State, more: seq<Action>)
    requires Inv(s) && Quiet(s) && Run(s, more).Some? && forall a :: a in more ==> !Connects(a)
    ensures Quiet(Run(s, more).value)
    decreases |more|
  {
    if more != [] {
      var before, last := more[..|more| - 1], more[|more| - 1];
      RunKeepsQuiet(s, before);
      RunKeepsInv(s, before);
      StepKeepsQuiet(Run(s, before).value, last);
    }
  }

  /** And it stays so: however the threads go on, no call ever finds a writer or runs out its timeout again. */
  lemma NobodyTimesOutLater(actions: seq<Action>, o: nat, s: State, more: seq<Action>, t: State, c: nat)
    requires Run(FRESH, actions) == Some(s) && WentDown(actions, s) && Run(s, more) == Some(t)
    requires OneOpener(actions + more, o)
    ensures t.sh.writer.None? && NextCall(t, c, Expire).None?
  {
    FreshInv();
    RunKeepsInv(FRESH, actions);
    RunOn(FRESH, actions, more);
    StaysDown(actions, s, more, t);
    DownIsQuiet(actions + more, o, t);
    if c in t.calls {
      QuietCall(t, c);
    }
  }

  lemma StaysDown(actions: seq<Action>, s: State, more: seq<Action>, t: State)
    requires Inv(s) && WentDown(actions, s) && Run(s, more) == Some(t)
    ensures WentDown(actions + more, t)
  {
    if r :| r in s.readers && s.readers[r].EndedTook? {
      RunKeepsTook(s, more, r);
    } else {
      var i, j :| TookAfterConnect(actions, i, j) && FinishedBy(s, actions[j].closer);
      RunKeepsFinished(s, more, actions[j].closer);
      assert TookAfterConnect(actions + more, i, j);
    }
  }

  lemma {:induction false} RunKeepsFinished(s: State, more: seq<Action>, k: nat)
    requires FinishedBy(s, k) && Run(s, more).Some?
    ensures FinishedBy(Run(s, more).value, k)
    decreases |more|
  {
    if more != [] {
      RunKeepsFinished(s, more[..|more| - 1], k);
      FinishedStays(Run(s, more[..|more| - 1]).value, more[|more| - 1], k);
    }
  }

  lemma {:induction false} RunKeepsTook(s: State, more: seq<Action>, r: nat)
    requires Inv(s) && r in s.readers && s.readers[r].EndedTook? && Run(s, more).Some?
    ensures r in Run(s, more).value.readers && Run(s, more).value.readers[r].EndedTook?
    decreases |more|
  {
    if more != [] {
      RunKeepsTook(s, more[..|more| - 1], r);
      RunKeepsInv(s, more[..|more| - 1]);
      TookStays(Run(s, more[..|more| - 1]).value, more[|more| - 1], r);
    }
  }

  // ---------------------------------------------------------------- runs that are not at risk

  /** Nobody is at risk just after the open's connect, if the run gets there. */
  ghost predicate Cleared(actions: seq<Action>) {
    forall i :: 0 <= i < |actions| && Connects(actions[i]) && Run(FRESH, actions[..i + 1]).Some? ==>
      !AtRisk(Run(FRESH, actions[..i + 1]).value)
  }

  /** A cleared run is calm from the connect on; before it, or without it, nobody waits. */
  lemma ClearedIsCalm(actions: seq<Action>, o: nat, s: State)
    requires Run(FRESH, actions) == Some(s) && OneOpener(actions, o) && Cleared(actions)
    ensures Sound(s, o) && (Calm(s, o) || Quiet(s))
  {
    FreshIsSound(o);
    RunIsSound(FRESH, o, actions);
    if i :| 0 <= i < |actions| && Connects(actions[i]) {
      var u := AfterConnect(actions, o, i);
      JustCalm(u, o);
      RunKeepsCalm(u, o, actions[i + 1..]);
    } else {
      RunKeepsQuiet(FRESH, actions);
    }
  }

  /** A run that is not at risk at its connect and never takes the extra-data branch strands nobody, ever. */
  lemma NobodyIsLeftBehind(actions: seq<Action>, o: nat, s: State, c: nat)
    requires Run(FRESH, actions) == Some(s) && OneOpener(actions, o) && Cleared(actions) && NoExtra(actions)
    ensures !Stranded(s, o, c)
  {
    ClearedIsCalm(actions, o, s);
    FreshInv();
    RunHasNoExtra(FRESH, actions);
    if Calm(s, o) {
      CalmIsNotStranded(s, o, c);
    }
  }

  /** On such a run a reader that ended any other way than by the extra-data branch left nobody behind, or left the
      work to a closer that is still under way: there is no writer and nobody waits unanswered, or the flag is up for
      good, no call is past its check and none that may wait owns an entry. */
  lemma ReaderEndIsSafe(actions: seq<Action>, o: nat, s: State, r: nat)
    requires Run(FRESH, actions) == Some(s) && OneOpener(actions, o) && Cleared(actions)
    requires r in s.readers && (s.readers[r].EndedTook? || s.readers[r].EndedSawClosed?)
    ensures Quiet(s) || (s.sh.closed && NonePastCheck(s) && NoOwner(s))
         || exists k :: k in s.closers && !s.closers[k].Finished?
  {
    ClearedIsCalm(actions, o, s);
  }

  lemma QuietCall(s: State, c: nat)
    requires Inv(s) && Quiet(s) && c in s.calls
    ensures s.calls[c].pc.Waiting? ==> NextCall(s, c, Receive).Some? || NextCall(s, c, Disconnect).Some?
    ensures NextCall(s, c, Expire).None?
  {
    assert CallOk(s, c);
  }

  lemma FinishedStays(s: State, a: Action, k: nat)
    requires Next(s, a).Some? && k in s.closers && s.closers[k].Finished?
    ensures k in Next(s, a).value.closers && Next(s, a).value.closers[k].Finished?
  {
    if a.ByCall? {
      CallEffects(s, a.call, a.callStep);
    }
  }

  lemma TookStays(s: State, a: Action, r: nat)
    requires Inv(s) && Next(s, a).Some? && r in s.readers && s.readers[r].EndedTook?
    ensures r in Next(s, a).value.readers && Next(s, a).value.readers[r].EndedTook?
  {
    match a {
      case ByCall(c, step) => CallEffects(s, c, step);
      case ByReader(q, step) => ReaderEffects(s, q, step);
      case _ =>
    }
  }


  // ---------------------------------------------------------------- readers that end without taking the writer

  /** The extra-data branch drains but leaves the writer: after it, as long as nobody closes, every later call whose
      command encodes can go out, and then waits with no reader left to answer it. */
  lemma ExtraFailureStrands(actions: seq<Action>, o: nat, s: State, r: nat, c: nat, command: Command)
    returns (more: seq<Action>, t: State)
    requires Run(FRESH, actions) == Some(s) && OneOpener(actions, o)
    requires s.closers == map[] && r in s.readers && s.readers[r].EndedExtra?
    requires c !in s.calls && FrameOf(command).Ok?
    ensures Run(s, more) == Some(t) && OneOpener(more, o)
    ensures t.readers == s.readers == map[r := EndedExtra] && t.closers == map[] && t.openers == s.openers
    ensures c in t.calls && t.calls[c].pc.Waiting? && t.sh.Owns(c) && t.sh.Empty(c)
  {
    FreshIsSound(o);
    RunIsSound(FRESH, o, actions);
    OnlyReader(s, o, r);
    more, t := CallGoesOut(s, c, command);
  }

  lemma OnlyReader(s: State, o: nat, r: nat)
    requires Sound(s, o) && s.closers == map[] && r in s.readers && s.readers[r].EndedExtra?
    ensures s.readers == map[r := EndedExtra] && !s.sh.closed && s.sh.writer.Some?
    ensures s.pendingLock.None? && s.writerLock.None?
  {
    assert forall q :: q in s.readers ==> q == r;
  }

  ghost predicate CanWaitUnanswered(s: State, o: nat) {
    exists more, t, c :: Run(s, more) == Some(t) && OneOpener(more, o) && WaitsUnanswered(t, c)
  }

  ghost predicate WaitsUnanswered(s: State, c: nat) {
    c in s.calls && s.calls[c].pc.Waiting? && s.sh.Owns(c)
  }

  /** Once the reader has ended and nobody has closed, some call can still come to wait unanswered exactly when the
      reader ended by the extra-data branch. */
  lemma ReaderEndStrandsExactly(actions: seq<Action>, o: nat, s: State, r: nat)
    requires Run(FRESH, actions) == Some(s) && OneOpener(actions, o)
    requires s.closers == map[] && r in s.readers
    requires s.readers[r].EndedTook? || s.readers[r].EndedSawClosed? || s.readers[r].EndedExtra?
    ensures CanWaitUnanswered(s, o) <==> s.readers[r].EndedExtra?
  {
    FreshIsSound(o);
    RunIsSound(FRESH, o, actions);
    if s.readers[r].EndedExtra? {
      var c := Unused(s.calls.Keys);
      var more, t := ExtraFailureStrands(actions, o, s, r, c, Ping(Zeros(16)));
      assert WaitsUnanswered(t, c);
    } else {
      forall more, t, c | Run(s, more) == Some(t) && OneOpener(more, o) ensures !WaitsUnanswered(t, c) {
        ConnectedStaysQuiet(s, o, more);
      }
    }
  }

  lemma {:induction false} ConnectedStaysQuiet(s: State, o: nat, more: seq<Action>)
    requires Sound(s, o) && !Unconnected(s, o) && Quiet(s) && Run(s, more).Some? && OneOpener(more, o)
    ensures Quiet(Run(s, more).value)
    decreases |more|
  {
    if more != [] {
      var before, last := more[..|more| - 1], more[|more| - 1];
      ConnectedStaysQuiet(s, o, before);
      RunIsSound(s, o, before);
      StepKeepsSound(Run(s, before).value, o, last);
      StepKeepsQuiet(Run(s, before).value, last);
    }
  }
}
