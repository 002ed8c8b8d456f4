/** The bytes a connection writes: whole frames, in the order the writer mutex let the calls in. */
module WireOrder {
  import opened Bytes
  import opened Protocol
  import opened Commands
  import opened ConnectionState
  import opened ConnectionRuns
  import opened ConnectionGuarantees

  /** Every call carries the id and the frame of its command. */
  ghost predicate Named(s: State) {
    forall c :: c in s.calls ==>
      s.calls[c].id == s.calls[c].command.RequestId() && s.calls[c].frame == FrameOf(s.calls[c].command)
  }

  ghost predicate OrderOk(s: State) {
    forall i :: 0 <= i < |s.order| ==> s.order[i] in s.calls && s.calls[s.order[i]].frame.Ok?
  }

  /** The frames of the calls that wrote, in the order the writer mutex let them in. */
  ghost function Written(s: State): seq<seq<u8>>
    requires OrderOk(s)
  {
    seq(|s.order|, i requires 0 <= i < |s.order| => s.calls[s.order[i]].frame.value)
  }

  ghost predicate Framed(s: State) {
    OrderOk(s) && (!s.torn ==> s.sh.wire == Concat(Written(s)))
  }

  /** Calls are never forgotten and never change what they send. */
  ghost predicate CallsPersist(s: State, t: State) {
    forall c :: c in s.calls ==>
      && c in t.calls && t.calls[c].command == s.calls[c].command
      && t.calls[c].id == s.calls[c].id && t.calls[c].frame == s.calls[c].frame
  }

  lemma SameWire(s: State, t: State)
    requires Framed(s) && CallsPersist(s, t) && t.order == s.order
    requires t.torn || (!s.torn && t.sh.wire == s.sh.wire)
    ensures Framed(t)
  {
    assert Written(t) == Written(s);
  }

  lemma OneMoreFrame(s: State, t: State, c: nat)
    requires Framed(s) && CallsPersist(s, t) && c in s.calls && s.calls[c].frame.Ok?
    requires t.order == s.order + [c] && t.torn == s.torn && t.sh.wire == s.sh.wire + s.calls[c].frame.value
    ensures Framed(t)
  {
    assert Written(t) == Written(s) + [s.calls[c].frame.value];
    ConcatAppend(Written(s), s.calls[c].frame.value);
  }

  lemma WriteKeepsFramed(s: State, c: nat, fault: Option<nat>)
    requires Framed(s) && c in s.calls && NextWrite(s, c, fault).Some?
    ensures Framed(NextWrite(s, c, fault).value) && CallsPersist(s, NextWrite(s, c, fault).value)
  {
    var t := NextWrite(s, c, fault).value;
    if s.sh.writer.Some? && fault.None? {
      OneMoreFrame(s, t, c);
    } else {
      SameWire(s, t);
    }
  }

  lemma LeaveKeepsFramed(s: State, c: nat, sh: Shared, outcome: Outcome)
    requires Framed(s) && c in s.calls && sh.wire == s.sh.wire
    ensures var t := Leave(s, c, sh, outcome);
            Framed(t) && CallsPersist(s, t)
  {
    SameWire(s, Leave(s, c, sh, outcome));
  }

  lemma CancelWriteKeepsFramed(s: State, c: nat, written: nat, contended: bool)
    requires Framed(s) && NextCall(s, c, CancelWrite(written, contended)).Some?
    ensures var t := NextCall(s, c, CancelWrite(written, contended)).value;
            Framed(t) && CallsPersist(s, t)
  {
    var half := s.(sh := WriteBytes(s.sh, s.calls[c].frame.value[..written]), torn := true);
    SameWire(s, half);
    LeaveKeepsFramed(half, c, Drop(half, c, contended).sh, Cancelled);
  }

  lemma MoveKeepsFramed(s: State, c: nat, sh: Shared, pc: CallPc)
    requires Framed(s) && c in s.calls && sh.wire == s.sh.wire
    ensures var t := Move(s.(sh := sh), c, pc);
            Framed(t) && CallsPersist(s, t)
  {
    SameWire(s, Move(s.(sh := sh), c, pc));
  }

  lemma CallKeepsFramed(s: State, c: nat, a: CallStep)
    requires Framed(s) && NextCall(s, c, a).Some?
    ensures var t := NextCall(s, c, a).value;
            Framed(t) && CallsPersist(s, t)
  {
    match a {
      case Write(fault) => WriteKeepsFramed(s, c, fault);
      case Unregister =>
        LeaveKeepsFramed(s, c, RemovePending(s.sh, s.calls[c].id), ExitOutcome(s.calls[c].pc).value);
      case Cancel(contended) =>
        if !s.calls[c].pc.Checked? {
          LeaveKeepsFramed(s, c, Drop(s, c, contended).sh, Cancelled);
        } else {
          MoveKeepsFramed(s, c, s.sh, Done(Cancelled));
        }
      case CancelWrite(written, contended) => CancelWriteKeepsFramed(s, c, written, contended);
      case _ =>
        var t := NextCall(s, c, a).value;
        MoveKeepsFramed(s, c, t.sh, t.calls[c].pc);
    }
  }

  lemma BeginKeepsFramed(s: State, c: nat, command: Command)
    requires Framed(s) && Named(s) && NextBegin(s, c, command).Some?
    ensures Framed(NextBegin(s, c, command).value) && Named(NextBegin(s, c, command).value)
  {
    SameWire(s, NextBegin(s, c, command).value);
  }

  lemma PersistKeepsNamed(s: State, t: State)
    requires Named(s) && CallsPersist(s, t) && t.calls.Keys == s.calls.Keys
    ensures Named(t)
  {
  }

  lemma StepKeepsFramed(s: State, a: Action)
    requires Inv(s) && Framed(s) && Named(s) && Next(s, a).Some?
    ensures Framed(Next(s, a).value) && Named(Next(s, a).value)
  {
    var t := Next(s, a).value;
    match a {
      case Begin(c, command) => BeginKeepsFramed(s, c, command);
      case ByCall(c, step) =>
        CallKeepsFramed(s, c, step);
        SameCalls(s, c, step);
        PersistKeepsNamed(s, t);
      case _ => OthersKeepFramed(s, a);
    }
  }

  lemma OthersKeepFramed(s: State, a: Action)
    requires Inv(s) && Framed(s) && Named(s) && Next(s, a).Some? && !a.Begin? && !a.ByCall?
    ensures Framed(Next(s, a).value) && Named(Next(s, a).value)
  {
    var t := Next(s, a).value;
    OthersAnswer(s, a);
    if OnlyTakes(s, t) {
      SameWire(s, t);
    }
  }

  lemma SameCalls(s: State, c: nat, a: CallStep)
    requires Inv(s) && NextCall(s, c, a).Some?
    ensures NextCall(s, c, a).value.calls.Keys == s.calls.Keys
  {
    if !a.Insert? {
      CallEffect(s, c, a);
    }
  }

  lemma {:induction false} RunIsFramed(actions: seq<Action>)
    requires Run(FRESH, actions).Some?
    ensures var s := Run(FRESH, actions).value;
            Inv(s) && Framed(s) && Named(s)
    decreases |actions|
  {
    if actions == [] {
      FreshInv();
    } else {
      var before := actions[..|actions| - 1];
      RunIsFramed(before);
      StepKeepsFramed(Run(FRESH, before).value, actions[|actions| - 1]);
      StepKeepsInv(Run(FRESH, before).value, actions[|actions| - 1]);
    }
  }

  ghost function WrittenCommands(s: State): seq<Command>
    requires OrderOk(s)
  {
    seq(|s.order|, i requires 0 <= i < |s.order| => s.calls[s.order[i]].command)
  }

  /** While no write on the current stream stopped short, the bytes after the init exchange are whole frames in
      writer-mutex order, and a server reads back exactly the commands that were written, in that order. */
  lemma WireIsTheCommands(actions: seq<Action>, s: State)
    requires Run(FRESH, actions) == Some(s) && !s.torn
    ensures OrderOk(s) && s.sh.wire == Concat(Written(s))
    ensures (forall c :: c in WrittenCommands(s) ==> WellFormedCommand(c)) ==>
              ParseRequests(s.sh.wire) == Some(WrittenCommands(s))
  {
    RunIsFramed(actions);
    if forall c :: c in WrittenCommands(s) ==> WellFormedCommand(c) {
      FramesReadBack(s);
    }
  }

  lemma FramesReadBack(s: State)
    requires OrderOk(s) && Named(s) && forall c :: c in WrittenCommands(s) ==> WellFormedCommand(c)
    ensures ParseRequests(Concat(Written(s))) == Some(WrittenCommands(s))
  {
    var commands := WrittenCommands(s);
    forall i | 0 <= i < |commands|
      ensures EncodeCommand(commands[i]).Ok? && WellFormedCommand(commands[i])
    {
      assert commands[i] in commands;
      assert s.calls[s.order[i]].frame == FrameOf(commands[i]);
    }
    assert FrameList(commands) == Written(s);
    RequestStream(commands);
  }
}
