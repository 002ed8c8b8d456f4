/** How a call ends, read off the steps it made: which reply means what happened. */
module CallOutcomes {
  import opened Bytes
  import opened Protocol
  import LockDataTrees
  import opened Commands
  import opened Codec
  import opened ConnectionState
  import opened ConnectionRuns
  import opened ConnectionGuarantees
  import opened Connection

  // ---------------------------------------------------------------- what a step decides

  datatype Mark =
    | CouldNotEncode
    | FoundNoWriter
    | FellShort            // a write to a live stream that got less than the whole frame out
    | GotMessage(message: Message)
    | LostSender
    | RanOut
    | WasCancelled

  /** What a step decides in the shared state it is made in. */
  ghost function MarkOf(sh: Shared, c: nat, a: CallStep): Option<Mark> {
    match a
    case FailEncode => Some(CouldNotEncode)
    case Insert => None
    case Write(fault) =>
      if sh.writer.None? then Some(FoundNoWriter) else if fault.Some? then Some(FellShort) else None
    case Unregister => None
    case Receive =>
      if c in sh.channels && sh.channels[c].sent != [] then Some(GotMessage(sh.channels[c].sent[0])) else None
    case Disconnect => Some(LostSender)
    case Expire => Some(RanOut)
    case Cancel(_) => Some(WasCancelled)
    case CancelWrite(_, _) => Some(WasCancelled)
  }

  /** The marks a call has met when it stands at a point. */
  ghost predicate Agrees(pc: CallPc, marks: seq<Mark>) {
    match pc
    case SawNoWriter => marks == [FoundNoWriter]
    case WriteFailed => marks == [FellShort]
    case Expired => marks == [RanOut]
    case Done(SawClosed) => marks == []
    case Done(EncodeFailed) => marks == [CouldNotEncode]
    case Done(NoWriter) => marks == [FoundNoWriter]
    case Done(WriteError) => marks == [FellShort]
    case Done(Replied(m)) => marks == [GotMessage(m)]
    case Done(Disconnected) => marks == [LostSender]
    case Done(TimedOut) => marks == [RanOut]
    case Done(Cancelled) => WasCancelled in marks
    case _ => marks == []
  }

  function Added(marks: seq<Mark>, mark: Option<Mark>): seq<Mark> {
    if mark.Some? then marks + [mark.value] else marks
  }

  lemma StepAgrees(s: State, c: nat, a: CallStep, marks: seq<Mark>)
    requires c in s.calls && NextCall(s, c, a).Some? && Agrees(s.calls[c].pc, marks)
    ensures c in NextCall(s, c, a).value.calls
    ensures Agrees(NextCall(s, c, a).value.calls[c].pc, Added(marks, MarkOf(s.sh, c, a)))
  {
    match a {
      case Write(fault) => WriteAgrees(s, c, fault, marks);
      case _ =>
    }
  }

  lemma WriteAgrees(s: State, c: nat, fault: Option<nat>, marks: seq<Mark>)
    requires c in s.calls && NextWrite(s, c, fault).Some? && Agrees(s.calls[c].pc, marks)
    ensures c in NextWrite(s, c, fault).value.calls
    ensures Agrees(NextWrite(s, c, fault).value.calls[c].pc, Added(marks, MarkOf(s.sh, c, Write(fault))))
  {
  }

  // ---------------------------------------------------------------- the code of a call

  ghost function MarksOf(c: nat, regions: seq<Region>): seq<Mark> {
    if regions == [] then [] else
    var last := |regions| - 1;
    Added(MarksOf(c, regions[..last]), MarkOf(regions[last].before, c, regions[last].step))
  }

  lemma {:induction false} PlaysFrom(c: nat, call: Call, regions: seq<Region>, end: CallPc, done: seq<Region>)
    requires Plays(c, call, regions, end) && Agrees(call.pc, MarksOf(c, done))
    ensures Agrees(end, MarksOf(c, done + regions))
    decreases |regions|
  {
    if regions == [] {
      assert done + regions == done;
    } else {
      var next :| Makes(c, call, regions[0], next) && Plays(c, next, regions[1..], end);
      StepAgrees(Alone(regions[0].before, c, call), c, regions[0].step, MarksOf(c, done));
      assert map[c := next][c] == next;
      assert (done + [regions[0]])[..|done|] == done;
      PlaysFrom(c, next, regions[1..], end, done + [regions[0]]);
      assert done + [regions[0]] + regions[1..] == done + regions;
    }
  }

  ghost predicate Marked(c: nat, regions: seq<Region>, m: Mark) {
    exists i :: 0 <= i < |regions| && MarkOf(regions[i].before, c, regions[i].step) == Some(m)
  }

  lemma {:induction false} MarkedExactly(c: nat, regions: seq<Region>, m: Mark)
    ensures m in MarksOf(c, regions) <==> Marked(c, regions, m)
  {
    if regions != [] {
      var last := |regions| - 1;
      MarkedExactly(c, regions[..last], m);
      if Marked(c, regions[..last], m) {
        var i :| 0 <= i < last && MarkOf(regions[..last][i].before, c, regions[..last][i].step) == Some(m);
        assert regions[i] == regions[..last][i];
      }
      if Marked(c, regions, m) {
        var i :| 0 <= i < |regions| && MarkOf(regions[i].before, c, regions[i].step) == Some(m);
        assert i < last ==> regions[..last][i] == regions[i];
      }
    }
  }

  // What happened, in terms of the regions alone.

  ghost predicate TimeRanOut(regions: seq<Region>) {
    exists i :: 0 <= i < |regions| && regions[i].step == Expire
  }

  ghost predicate WriteFellShort(regions: seq<Region>) {
    exists i :: 0 <= i < |regions| && regions[i].step.Write? && regions[i].step.fault.Some?
        && regions[i].before.writer.Some?
  }

  ghost predicate NoWriterFound(regions: seq<Region>) {
    exists i :: 0 <= i < |regions| && regions[i].step.Write? && regions[i].before.writer.None?
  }

  ghost predicate NotEncoded(regions: seq<Region>) {
    exists i :: 0 <= i < |regions| && regions[i].step == FailEncode
  }

  ghost predicate SenderGone(regions: seq<Region>) {
    exists i :: 0 <= i < |regions| && regions[i].step == Disconnect
  }

  ghost predicate WasDropped(regions: seq<Region>) {
    exists i :: 0 <= i < |regions| && (regions[i].step.Cancel? || regions[i].step.CancelWrite?)
  }

  ghost predicate ReceivedFirst(c: nat, regions: seq<Region>, m: Message) {
    exists i :: 0 <= i < |regions| && regions[i].step == CallStep.Receive
      && c in regions[i].before.channels && regions[i].before.channels[c].sent != []
      && regions[i].before.channels[c].sent[0] == m
  }

  lemma MarksAreFacts(c: nat, regions: seq<Region>)
    ensures Marked(c, regions, RanOut) <==> TimeRanOut(regions)
    ensures Marked(c, regions, FellShort) <==> WriteFellShort(regions)
    ensures Marked(c, regions, FoundNoWriter) <==> NoWriterFound(regions)
    ensures Marked(c, regions, CouldNotEncode) <==> NotEncoded(regions)
    ensures Marked(c, regions, LostSender) <==> SenderGone(regions)
    ensures Marked(c, regions, WasCancelled) <==> WasDropped(regions)
  {
    assert forall i :: 0 <= i < |regions| ==>
             (regions[i].step == Expire <==> MarkOf(regions[i].before, c, regions[i].step) == Some(RanOut));
  }

  lemma MessageIsFact(c: nat, regions: seq<Region>, m: Message)
    ensures Marked(c, regions, GotMessage(m)) <==> ReceivedFirst(c, regions, m)
  {
  }

  /** The end of a call says what happened in its regions: each end happens exactly when the fact it stands for is among
      them and the call was not cancelled. */
  lemma EndTells(c: nat, call: Call, regions: seq<Region>, o: Outcome)
    requires call.pc.Checked? && Plays(c, call, regions, Done(o))
    ensures o == Cancelled <==> WasDropped(regions)
    ensures o == TimedOut <==> TimeRanOut(regions) && !WasDropped(regions)
    ensures o == WriteError <==> WriteFellShort(regions) && !WasDropped(regions)
    ensures o == NoWriter <==> NoWriterFound(regions) && !WasDropped(regions)
    ensures o == EncodeFailed <==> NotEncoded(regions) && !WasDropped(regions)
    ensures o == Disconnected <==> SenderGone(regions) && !WasDropped(regions)
    ensures forall m :: o == Replied(m) <==> ReceivedFirst(c, regions, m) && !WasDropped(regions)
    ensures o != SawClosed
  {
    assert MarksOf(c, []) == [] && [] + regions == regions;
    PlaysFrom(c, call, regions, Done(o), []);
    MarksAreFacts(c, regions);
    MarksAreMembers(c, regions);
    EndIsMark(o, MarksOf(c, regions));
    forall m ensures o == Replied(m) <==> ReceivedFirst(c, regions, m) && !WasDropped(regions) {
      MessageIsFact(c, regions, m);
      MarkedExactly(c, regions, GotMessage(m));
    }
    if o == SawClosed {
      NeverSawClosed(c, call, regions);
    }
  }

  lemma MarksAreMembers(c: nat, regions: seq<Region>)
    ensures forall m :: m in MarksOf(c, regions) <==> Marked(c, regions, m)
  {
    forall m ensures m in MarksOf(c, regions) <==> Marked(c, regions, m) {
      MarkedExactly(c, regions, m);
    }
  }

  lemma EndIsMark(o: Outcome, marks: seq<Mark>)
    requires Agrees(Done(o), marks)
    ensures o == Cancelled <==> WasCancelled in marks
    ensures o == TimedOut <==> RanOut in marks && WasCancelled !in marks
    ensures o == WriteError <==> FellShort in marks && WasCancelled !in marks
    ensures o == NoWriter <==> FoundNoWriter in marks && WasCancelled !in marks
    ensures o == EncodeFailed <==> CouldNotEncode in marks && WasCancelled !in marks
    ensures o == Disconnected <==> LostSender in marks && WasCancelled !in marks
    ensures forall m :: o == Replied(m) <==> GotMessage(m) in marks && WasCancelled !in marks
  {
  }

  /** Past the closed check a call never ends by it. */
  lemma {:induction false} NeverSawClosed(c: nat, call: Call, regions: seq<Region>)
    requires call.pc != Done(SawClosed)
    ensures !Plays(c, call, regions, Done(SawClosed))
    decreases |regions|
  {
    if regions != [] {
      forall next | Makes(c, call, regions[0], next) ensures !Plays(c, next, regions[1..], Done(SawClosed)) {
        assert map[c := next][c] == next;
        StepIsNotCheck(Alone(regions[0].before, c, call), c, regions[0].step);
        NeverSawClosed(c, next, regions[1..]);
      }
    }
  }

  lemma StepIsNotCheck(s: State, c: nat, a: CallStep)
    requires c in s.calls && NextCall(s, c, a).Some?
    ensures c in NextCall(s, c, a).value.calls && NextCall(s, c, a).value.calls[c].pc != Done(SawClosed)
  {
  }

  lemma EncodeErrors(command: Command)
    requires EncodeCommand(command).Err?
    ensures EncodeCommand(command).error.LockDataError?
  {
    EncodeErrorTells(command);
    if command.lock.data.Some? {
      LockDataTrees.EncodeErrorTells(command.lock.data.value);
    }
  }

  /** What the reply of `send_command` says, for every interleaving: its regions are those its contract speaks of. */
  lemma ReplyTells(seen: Shared, c: nat, command: Command, regions: seq<Region>, outcome: Outcome, r: Reply)
    requires Plays(c, Entered(seen, c, command), regions, Done(outcome)) && Reports(r, outcome, command)
    ensures r == Failed(CommandTimeout) <==> !seen.closed && TimeRanOut(regions)
    ensures r == Failed(Io) <==> !seen.closed && WriteFellShort(regions)
    ensures r == Failed(NotConnected) <==> !seen.closed && NoWriterFound(regions)
    ensures r == Failed(ClientClosed) <==> seen.closed || SenderGone(regions)
    ensures r.Failed? && r.error.LockDataError? <==> !seen.closed && NotEncoded(regions)
    ensures r.Failed? && r.error.LockDataError? ==> EncodeCommand(command) == Err(r.error)
    ensures forall m :: r == Got(m) <==> !seen.closed && ReceivedFirst(c, regions, m)
  {
    var call := Entered(seen, c, command);
    if outcome.EncodeFailed? {
      EncodeErrors(command);
    }
    if seen.closed {
      DoneStays(c, call, regions, Done(outcome));
    } else {
      EndTells(c, call, regions, outcome);
    }
  }

  lemma DoneStays(c: nat, call: Call, regions: seq<Region>, end: CallPc)
    requires call.pc.Done? && Plays(c, call, regions, end)
    ensures regions == [] && end == call.pc
  {
    if regions != [] {
      var next :| Makes(c, call, regions[0], next) && Plays(c, next, regions[1..], end);
      DoneIsDone(Alone(regions[0].before, c, call), c, regions[0].step);
    }
  }

  lemma DoneIsDone(s: State, c: nat, a: CallStep)
    requires c in s.calls && s.calls[c].pc.Done?
    ensures NextCall(s, c, a).None?
  {
  }

  // ---------------------------------------------------------------- any run

  /** The marks of call c on a run. */
  ghost function History(actions: seq<Action>, c: nat): seq<Mark>
    decreases |actions|
  {
    if actions == [] then [] else
    var before, last := actions[..|actions| - 1], actions[|actions| - 1];
    match Run(FRESH, before)
    case None => History(before, c)
    case Some(s) => if last.ByCall? && last.call == c then Added(History(before, c), MarkOf(s.sh, c, last.callStep))
                    else History(before, c)
  }

  lemma {:induction false} RunAgrees(actions: seq<Action>, s: State, c: nat)
    requires Run(FRESH, actions) == Some(s)
    ensures if c in s.calls then Agrees(s.calls[c].pc, History(actions, c)) else History(actions, c) == []
    decreases |actions|
  {
    if actions != [] {
      var before, last := actions[..|actions| - 1], actions[|actions| - 1];
      var u := Run(FRESH, before).value;
      RunAgrees(before, u, c);
      FreshInv();
      RunKeepsInv(FRESH, before);
      match last {
        case Begin(_, _) =>
        case ByCall(d, step) =>
          if d == c {
            StepAgrees(u, c, step, History(before, c));
          } else {
            OtherCall(u, d, step, c);
          }
        case _ => OthersAnswer(u, last);
      }
    }
  }

  lemma OtherCall(s: State, d: nat, a: CallStep, c: nat)
    requires Inv(s) && NextCall(s, d, a).Some? && c != d
    ensures c in NextCall(s, d, a).value.calls <==> c in s.calls
    ensures c in s.calls ==> NextCall(s, d, a).value.calls[c] == s.calls[c]
  {
    if !a.Insert? {
      CallEffect(s, d, a);
    }
  }

  /** Position i of a run is call c's step `a`, made where the writer is there or not. */
  ghost predicate StepAt(actions: seq<Action>, i: nat, c: nat, m: Mark)
    requires i < |actions|
  {
    && actions[i].ByCall? && actions[i].call == c && Run(FRESH, actions[..i]).Some?
    && MarkOf(Run(FRESH, actions[..i]).value.sh, c, actions[i].callStep) == Some(m)
  }

  ghost predicate Ran(actions: seq<Action>, c: nat, m: Mark) {
    exists i :: 0 <= i < |actions| && StepAt(actions, i, c, m)
  }

  lemma {:induction false} HistoryExactly(actions: seq<Action>, c: nat, m: Mark)
    ensures m in History(actions, c) <==> Ran(actions, c, m)
    decreases |actions|
  {
    if actions != [] {
      HistoryExactly(actions[..|actions| - 1], c, m);
      HistoryGrows(actions, c, m);
      RanGrows(actions, c, m);
    }
  }

  lemma RanGrows(actions: seq<Action>, c: nat, m: Mark)
    requires actions != []
    ensures Ran(actions, c, m) <==> Ran(actions[..|actions| - 1], c, m) || StepAt(actions, |actions| - 1, c, m)
  {
    var last := |actions| - 1;
    if i :| 0 <= i < last && StepAt(actions, i, c, m) {
      SameStepAt(actions, i, c, m);
    }
    if i :| 0 <= i < last && StepAt(actions[..last], i, c, m) {
      SameStepAt(actions, i, c, m);
    }
  }

  lemma HistoryGrows(actions: seq<Action>, c: nat, m: Mark)
    requires actions != []
    ensures m in History(actions, c)
       <==> m in History(actions[..|actions| - 1], c) || StepAt(actions, |actions| - 1, c, m)
  {
  }

  lemma SameStepAt(actions: seq<Action>, i: nat, c: nat, m: Mark)
    requires i + 1 < |actions|
    ensures StepAt(actions, i, c, m) <==> StepAt(actions[..|actions| - 1], i, c, m)
  {
    assert actions[..|actions| - 1][..i] == actions[..i];
  }

  /** Over every run: a call that is done timed out exactly when its time ran out, failed to write exactly when a
      write of its fell short, and so on, unless it was cancelled. */
  lemma RunTells(actions: seq<Action>, s: State, c: nat)
    requires Run(FRESH, actions) == Some(s) && c in s.calls && s.calls[c].pc.Done?
    ensures var o := s.calls[c].pc.outcome;
            var kept := !Ran(actions, c, WasCancelled);
            && (o == Cancelled <==> !kept)
            && (o == TimedOut <==> kept && Ran(actions, c, RanOut))
            && (o == WriteError <==> kept && Ran(actions, c, FellShort))
            && (o == NoWriter <==> kept && Ran(actions, c, FoundNoWriter))
            && (o == EncodeFailed <==> kept && Ran(actions, c, CouldNotEncode))
            && (o == Disconnected <==> kept && Ran(actions, c, LostSender))
            && (forall m :: o == Replied(m) <==> kept && Ran(actions, c, GotMessage(m)))
  {
    RunAgrees(actions, s, c);
    forall m: Mark ensures m in History(actions, c) <==> Ran(actions, c, m) {
      HistoryExactly(actions, c, m);
    }
    EndIsMark(s.calls[c].pc.outcome, History(actions, c));
  }

  // ---------------------------------------------------------------- what a drain tells

  /** A drain sends the one message to every owner of an entry and to nobody else. */
  lemma DrainTells(s: Shared, m: Message, c: nat)
    requires s.Valid() && c in s.channels
    ensures c in DrainPending(s, m).channels && DrainPending(s, m).pending == map[]
    ensures DrainPending(s, m).channels[c].sent == if s.Owns(c) then [m] else s.channels[c].sent
  {
    if s.Owns(c) {
      OwnerIsEmpty(s, c);
    }
  }

  /** Every waiter left when the stream breaks is told of an input or output error, and every one left when the
      connection is closed, or when its data breaks off, that the client was closed. */
  lemma WhatWaitersAreTold(s: State, r: nat, k: nat, c: nat)
    requires Inv(s) && s.sh.Owns(c)
    ensures NextReader(s, r, DrainAll).Some? ==> Told(NextReader(s, r, DrainAll).value, c, Io)
    ensures NextReader(s, r, FailExtra).Some? ==> Told(NextReader(s, r, FailExtra).value, c, ClientClosed)
    ensures NextCloser(s, k, WakeAll).Some? ==> Told(NextCloser(s, k, WakeAll).value, c, ClientClosed)
  {
    DrainTells(s.sh, Broken, c);
    DrainTells(s.sh, Closed, c);
  }

  ghost predicate Told(s: State, c: nat, e: SlockError) {
    c in s.sh.channels && |s.sh.channels[c].sent| == 1 && s.sh.channels[c].sent[0].Result() == Err(e)
  }

  /** And a waiter that is answered is given what its frame decodes to. */
  lemma AnswersAreDecoded(s: Shared, header: Header, data: Option<seq<u8>>)
    requires s.Valid() && header[3..19] in s.pending
    ensures var t, c := DeliverTo(s, header[3..19], Message.Answer(header, data)), s.pending[header[3..19]];
            c in t.channels && |t.channels[c].sent| == 1
                && t.channels[c].sent[0].Result() == DecodeResponse(header, data)
  {
    assert s.Empty(s.pending[header[3..19]]);
  }

  // ---------------------------------------------------------------- what openers and closers mean to a call

  /** After an open has put the flag down a new call is let in; after a close has raised it none is. */
  lemma FlagLetsCallsIn(s: State, o: nat, k: nat, c: nat, command: Command)
    requires c !in s.calls
    ensures NextOpener(s, o, ResetClosed).Some? ==> Enters(NextOpener(s, o, ResetClosed).value, c, command, Checked)
    ensures NextCloser(s, k, StoreClosed).Some? ==>
              Enters(NextCloser(s, k, StoreClosed).value, c, command, Done(SawClosed))
  {
  }

  ghost predicate Enters(s: State, c: nat, command: Command, pc: CallPc) {
    var t := NextBegin(s, c, command);
    t.Some? && c in t.value.calls && t.value.calls[c].pc == pc && t.value.sh == s.sh
  }

  /** After an open has connected, a frame is the first thing on the new wire; after a close or a reader has taken the
      writer, a call finds none. */
  lemma WriterLetsFramesOut(s: State, o: nat, stream: nat, k: nat, r: nat, c: nat)
    requires c in s.calls && s.calls[c].pc.Inserted? && s.calls[c].frame.Ok?
    ensures NextOpener(s, o, Connect(stream)).Some? ==>
              Writes(NextOpener(s, o, Connect(stream)).value, c, Waiting, s.calls[c].frame.value)
    ensures NextCloser(s, k, TakeStream).Some? ==>
              Writes(NextCloser(s, k, TakeStream).value, c, SawNoWriter, s.sh.wire)
    ensures NextReader(s, r, TakeWriter).Some? ==>
              Writes(NextReader(s, r, TakeWriter).value, c, SawNoWriter, s.sh.wire)
  {
  }

  ghost predicate Writes(s: State, c: nat, pc: CallPc, wire: seq<u8>) {
    var t := NextCall(s, c, Write(None));
    t.Some? && c in t.value.calls && t.value.calls[c].pc == pc && t.value.sh.wire == wire
  }
}
