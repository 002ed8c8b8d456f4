/** Every interleaving of the threads that share one connection: calls, reader threads, closers and openers.
    A step is one region; a run is any sequence of enabled steps. */
module ConnectionRuns {
  import opened Bytes
  import opened Protocol
  import opened Commands
  import opened Codec
  import opened ConnectionState

  // ---------------------------------------------------------------- threads

  /** How a call ended. */
  datatype Outcome =
    | SawClosed | EncodeFailed | NoWriter | WriteError
    | Replied(message: Message) | Disconnected | TimedOut | Cancelled

  datatype CallPc =
    | Checked        // past the closed check
    | Inserted       // entry in the map, writer not looked at yet
    | SawNoWriter    // holds the writer mutex, entry still to be removed
    | WriteFailed    // entry still to be removed
    | Waiting        // in recv_timeout
    | Expired        // timed out, entry still to be removed
    | Done(outcome: Outcome)

  /** `id` and `frame` are what encoding the command gives. */
  datatype Call = Call(command: Command, id: Id16, frame: Result<seq<u8>>, pc: CallPc) {
    /** Between insertion and exit. */
    predicate InFlight() {
      pc.Inserted? || pc.SawNoWriter? || pc.WriteFailed? || pc.Waiting? || pc.Expired?
    }
  }

  datatype ReaderPc =
    | Reading
    | Failing        // header read failed and `closed` was read as false
    | Drained        // holds the pending mutex, the writer still to be taken
    | EndedTook | EndedSawClosed | EndedExtra

  datatype CloserPc = Stored | Took | Finished

  datatype OpenerPc = MustConnect | Connecting | Spawning(stream: nat) | Opened

  datatype State = State(
    sh: Shared,
    writerLock: Option<nat>,   // the call that holds the writer mutex across another region
    pendingLock: Option<nat>,  // the reader that holds the pending mutex across another region
    calls: map<nat, Call>, readers: map<nat, ReaderPc>, closers: map<nat, CloserPc>, openers: map<nat, OpenerPc>,
    order: seq<nat>,           // calls whose frame was written whole on the current stream
    torn: bool)                // a write on the current stream stopped short

  // ---------------------------------------------------------------- steps

  datatype CallStep =
    | FailEncode | Insert
    | Write(fault: Option<nat>)
    | Unregister
    | Receive | Disconnect | Expire
    | Cancel(contended: bool)                       // asynchronous calls only: the future is dropped
    | CancelWrite(written: nat, contended: bool)    // dropped inside the write

  datatype ReaderStep = Frame(header: Header, data: Option<seq<u8>>) | FailHeader | DrainAll | TakeWriter | FailExtra

  datatype CloserStep = StoreClosed | TakeStream | WakeAll

  datatype OpenerStep = Look | ResetClosed | FailConnect | Connect(stream: nat) | Spawn

  datatype Action =
    | Begin(call: nat, command: Command)
    | ByCall(call: nat, callStep: CallStep)
    | ByReader(reader: nat, readerStep: ReaderStep)
    | ByCloser(closer: nat, closerStep: CloserStep)
    | ByOpener(opener: nat, openerStep: OpenerStep)

  function Move(s: State, c: nat, pc: CallPc): State
    requires c in s.calls
  {
    s.(calls := s.calls[c := s.calls[c].(pc := pc)])
  }

  function FrameOf(c: Command): Result<seq<u8>> {
    var e :- EncodeCommand(c);
    Ok(e.Frame())
  }

  /** `send_command` is entered: the closed flag is read first. */
  function NextBegin(s: State, c: nat, command: Command): Option<State> {
    if c in s.calls then None else
    var pc := if s.sh.closed then Done(SawClosed) else Checked;
    Some(s.(calls := s.calls[c := Call(command, command.RequestId(), FrameOf(command), pc)]))
  }

  /** The region under the writer mutex. */
  function NextWrite(s: State, c: nat, fault: Option<nat>): Option<State>
    requires c in s.calls
  {
    var call := s.calls[c];
    if !call.pc.Inserted? || call.frame.Err? || s.writerLock.Some? then None
    else if s.sh.writer.None? then Some(Move(s.(writerLock := Some(c)), c, SawNoWriter))
    else if fault.None? then
      Some(Move(s.(sh := WriteBytes(s.sh, call.frame.value), order := s.order + [c]), c, Waiting))
    else if fault.value <= |call.frame.value| then
      Some(Move(s.(sh := WriteBytes(s.sh, call.frame.value[..fault.value]), torn := true), c, WriteFailed))
    else None
  }

  /** How a call that has its entry left to remove will end. */
  function ExitOutcome(pc: CallPc): Option<Outcome> {
    match pc
    case SawNoWriter => Some(NoWriter)
    case WriteFailed => Some(WriteError)
    case Expired => Some(TimedOut)
    case _ => None
  }

  /** The call leaves; a writer mutex it holds is released with it. */
  function Leave(s: State, c: nat, sh: Shared, outcome: Outcome): State
    requires c in s.calls
  {
    Move(s.(sh := sh, writerLock := if s.writerLock == Some(c) then None else s.writerLock), c, Done(outcome))
  }

  function NextUnregister(s: State, c: nat): Option<State>
    requires c in s.calls
  {
    var outcome := ExitOutcome(s.calls[c].pc);
    if s.pendingLock.Some? || outcome.None? then None
    else Some(Leave(s, c, RemovePending(s.sh, s.calls[c].id), outcome.value))
  }

  function NextCall(s: State, c: nat, a: CallStep): Option<State> {
    if c !in s.calls then None else
    var pc, id := s.calls[c].pc, s.calls[c].id;
    match a
    case FailEncode =>
      if pc.Checked? && s.calls[c].frame.Err? then Some(Move(s, c, Done(EncodeFailed))) else None
    case Insert =>
      if pc.Checked? && s.calls[c].frame.Ok? && s.pendingLock.None? then
        Some(Move(s.(sh := InsertPending(s.sh, c, id)), c, Inserted))
      else None
    case Write(fault) => NextWrite(s, c, fault)
    case Unregister => NextUnregister(s, c)
    case Receive =>
      if pc.Waiting? && c in s.sh.channels && s.sh.channels[c].sent != [] then
        Some(Move(s, c, Done(Replied(s.sh.channels[c].sent[0]))))
      else None
    case Disconnect =>
      if pc.Waiting? && s.sh.Empty(c) && !s.sh.Owns(c) then Some(Move(s, c, Done(Disconnected))) else None
    case Expire =>
      if pc.Waiting? && s.sh.Empty(c) && s.sh.Owns(c) then Some(Move(s, c, Expired)) else None
    case Cancel(contended) =>
      if pc.Done? then None
      else if pc.Checked? then Some(Move(s, c, Done(Cancelled)))
      else Some(Drop(s, c, contended))
    case CancelWrite(written, contended) =>
      if pc.Inserted? && s.writerLock.None? && s.sh.writer.Some? && s.calls[c].frame.Ok?
         && written <= |s.calls[c].frame.value| then
        Some(Drop(s.(sh := WriteBytes(s.sh, s.calls[c].frame.value[..written]), torn := true), c, contended))
      else None
  }

  /** The cleanup guard: `try_lock`, and remove the entry when the mutex is free. The writer guard goes too. */
  function Drop(s: State, c: nat, contended: bool): State
    requires c in s.calls
  {
    Leave(s, c, if contended || s.pendingLock.Some? then s.sh else RemovePending(s.sh, s.calls[c].id), Cancelled)
  }

  function NextReader(s: State, r: nat, a: ReaderStep): Option<State> {
    if r !in s.readers then None else
    var pc := s.readers[r];
    match a
    case Frame(header, data) =>
      if pc.Reading? && s.pendingLock.None? && (data.Some? <==> ResponseHasExtraData(header)) then
        Some(s.(sh := DeliverTo(s.sh, RoutingKey(header, data), Answer(header, data))))
      else None
    case FailHeader =>
      if pc.Reading? then Some(s.(readers := s.readers[r := if s.sh.closed then EndedSawClosed else Failing])) else None
    case DrainAll =>
      if pc.Failing? && s.pendingLock.None? then
        Some(s.(sh := DrainPending(s.sh, Broken), pendingLock := Some(r), readers := s.readers[r := Drained]))
      else None
    case TakeWriter =>
      if pc.Drained? && s.writerLock.None? then
        Some(s.(sh := s.sh.(writer := None), pendingLock := None, readers := s.readers[r := EndedTook]))
      else None
    case FailExtra =>
      if pc.Reading? && s.pendingLock.None? then
        Some(s.(sh := DrainPending(s.sh, Closed), readers := s.readers[r := EndedExtra]))
      else None
  }

  function NextCloser(s: State, k: nat, a: CloserStep): Option<State> {
    match a
    case StoreClosed =>
      if k in s.closers then None else Some(s.(sh := s.sh.(closed := true), closers := s.closers[k := Stored]))
    case TakeStream =>
      if k in s.closers && s.closers[k].Stored? && s.writerLock.None? then
        Some(s.(sh := s.sh.(writer := None), closers := s.closers[k := Took]))
      else None
    case WakeAll =>
      if k in s.closers && s.closers[k].Took? && s.pendingLock.None? then
        Some(s.(sh := DrainPending(s.sh, Closed), closers := s.closers[k := Finished]))
      else None
  }

  function NextOpener(s: State, o: nat, a: OpenerStep): Option<State> {
    match a
    case Look =>
      if o in s.openers || s.writerLock.Some? then None
      else Some(s.(openers := s.openers[o := if s.sh.writer.Some? then Opened else MustConnect]))
    case ResetClosed =>
      if o in s.openers && s.openers[o].MustConnect? then
        Some(s.(sh := s.sh.(closed := false), openers := s.openers[o := Connecting]))
      else None
    case FailConnect =>
      if o in s.openers && s.openers[o].Connecting? then Some(s.(openers := s.openers[o := Opened])) else None
    case Connect(stream) =>
      if o in s.openers && s.openers[o].Connecting? && s.writerLock.None? then
        Some(s.(sh := s.sh.(writer := Some(stream), wire := []), order := [], torn := false,
                openers := s.openers[o := Spawning(stream)]))
      else None
    case Spawn =>
      if o in s.openers && s.openers[o].Spawning? && s.openers[o].stream !in s.readers then
        Some(s.(readers := s.readers[s.openers[o].stream := Reading], openers := s.openers[o := Opened]))
      else None
  }

  function Next(s: State, a: Action): Option<State> {
    match a
    case Begin(c, command) => NextBegin(s, c, command)
    case ByCall(c, step) => NextCall(s, c, step)
    case ByReader(r, step) => NextReader(s, r, step)
    case ByCloser(k, step) => NextCloser(s, k, step)
    case ByOpener(o, step) => NextOpener(s, o, step)
  }

  function Run(s: State, actions: seq<Action>): Option<State>
    decreases |actions|
  {
    if actions == [] then Some(s) else
    match Run(s, actions[..|actions| - 1])
    case None => None
    case Some(t) => Next(t, actions[|actions| - 1])
  }

  lemma RunStep(s: State, actions: seq<Action>, a: Action)
    ensures Run(s, actions + [a]) == match Run(s, actions) case None => None case Some(t) => Next(t, a)
  {
    assert (actions + [a])[..|actions|] == actions;
  }

  /** A run goes on where another stopped. */
  lemma {:induction false} RunOn(s: State, actions: seq<Action>, more: seq<Action>)
    ensures Run(s, actions + more) == match Run(s, actions) case None => None case Some(t) => Run(t, more)
    decreases |more|
  {
    if more == [] {
      assert actions + more == actions;
    } else {
      var last := |more| - 1;
      RunOn(s, actions, more[..last]);
      assert actions + more == actions + more[..last] + [more[last]];
      RunStep(s, actions + more[..last], more[last]);
    }
  }

  const FRESH := State(Shared(false, None, map[], map[], []), None, None, map[], map[], map[], map[], [], false)

  // ---------------------------------------------------------------- what every step keeps

  /** A message is right for an id: if it answers, its header carries that id. */
  predicate RightFor(m: Message, id: Id16) {
    m.Answer? ==> m.header[3..19] == id
  }

  ghost predicate ChannelOk(s: State, c: nat)
    requires c in s.sh.channels
  {
    && c in s.calls && s.sh.channels[c].id == s.calls[c].id && !s.calls[c].pc.Checked?
    && |s.sh.channels[c].sent| <= 1
    && (forall m :: m in s.sh.channels[c].sent ==> RightFor(m, s.sh.channels[c].id))
  }

  ghost predicate CallOk(s: State, c: nat)
    requires c in s.calls
  {
    && (s.calls[c].InFlight() ==> c in s.sh.channels)
    && (s.calls[c].pc.Done? && s.calls[c].pc.outcome.Replied? ==>
          c in s.sh.channels && s.sh.channels[c].sent == [s.calls[c].pc.outcome.message])
  }

  ghost predicate LocksOk(s: State) {
    && (forall r :: r in s.readers && s.readers[r].Drained? ==> s.pendingLock == Some(r))
    && (s.pendingLock.Some? ==> s.sh.pending == map[])
  }

  ghost predicate Inv(s: State) {
    && s.sh.Valid()
    && (forall c :: c in s.sh.channels ==> ChannelOk(s, c))
    && (forall c :: c in s.calls ==> CallOk(s, c))
    && LocksOk(s)
  }

  // Threads other than calls change the shared state only by answering owners.

  /** From s to t, some owners were answered rightly and lost their entries; nothing else moved. */
  ghost predicate Answers(s: Shared, t: Shared) {
    && t.Valid()
    && t.channels.Keys == s.channels.Keys
    && (forall c :: c in s.channels ==> Answered(s, t, c))
    && (s.pending == map[] ==> t.pending == map[])
  }

  ghost predicate Answered(s: Shared, t: Shared, c: nat)
    requires c in s.channels && c in t.channels
  {
    || (t.channels[c] == s.channels[c] && (t.Owns(c) <==> s.Owns(c)))
    || (s.Owns(c) && !t.Owns(c)
        && exists m :: RightFor(m, s.channels[c].id) && t.channels[c] == Received(s.channels[c], m))
  }

  lemma DeliverAnswers(s: Shared, header: Header, data: Option<seq<u8>>)
    requires s.Valid()
    ensures Answers(s, DeliverTo(s, header[3..19], Answer(header, data)))
  {
    var key, m := header[3..19], Answer(header, data);
    var t := DeliverTo(s, key, m);
    if key in s.pending {
      var call := s.pending[key];
      assert s.Empty(call) && s.channels[call].id == key;
      assert RightFor(m, key);
      forall id | id in t.pending
        ensures t.Empty(t.pending[id]) && t.channels[t.pending[id]].id == id
      {
        assert s.Empty(s.pending[id]) && s.channels[s.pending[id]].id == id;
      }
    }
  }

  lemma DrainAnswers(s: Shared, m: Message)
    requires s.Valid() && !m.Answer?
    ensures Answers(s, DrainPending(s, m)) && DrainPending(s, m).pending == map[]
  {
    var t := DrainPending(s, m);
    forall c | c in s.channels
      ensures Answered(s, t, c)
    {
      assert RightFor(m, s.channels[c].id);
    }
  }

  lemma AnswersKeepInv(s: State, t: State)
    requires Inv(s) && Answers(s.sh, t.sh) && t.calls == s.calls && LocksOk(t)
    ensures Inv(t)
  {
    forall c | c in t.sh.channels
      ensures ChannelOk(t, c)
    {
      assert ChannelOk(s, c) && Answered(s.sh, t.sh, c);
      if s.sh.Owns(c) {
        OwnerIsEmpty(s.sh, c);
      }
    }
    forall c | c in t.calls
      ensures CallOk(t, c)
    {
      assert CallOk(s, c);
      if c in s.sh.channels {
        assert Answered(s.sh, t.sh, c);
        if s.sh.Owns(c) {
          OwnerIsEmpty(s.sh, c);
        }
      }
    }
  }

  /** A call moves on without touching any channel. */
  lemma MoveKeepsInv(s: State, t: State, c: nat)
    requires Inv(s) && c in s.calls && c in t.calls
    requires t.calls == s.calls[c := t.calls[c]] && t.calls[c].id == s.calls[c].id && !t.calls[c].pc.Checked?
    requires t.sh.channels == s.sh.channels && t.sh.Valid() && CallOk(t, c)
    requires t.readers == s.readers && t.pendingLock == s.pendingLock && t.sh.pending.Keys <= s.sh.pending.Keys
    ensures Inv(t)
  {
    forall d | d in t.sh.channels
      ensures ChannelOk(t, d)
    {
      assert ChannelOk(s, d);
    }
    forall d | d in t.calls
      ensures CallOk(t, d)
    {
      assert CallOk(s, d);
    }
  }

  lemma InsertKeepsInv(s: State, c: nat)
    requires Inv(s) && c in s.calls && NextCall(s, c, Insert).Some?
    ensures Inv(NextCall(s, c, Insert).value)
  {
    var t := NextCall(s, c, Insert).value;
    assert c !in s.sh.channels;
    InsertIsLive(s.sh, c, s.calls[c].id);
    forall d | d in t.sh.channels
      ensures ChannelOk(t, d)
    {
      assert d != c ==> ChannelOk(s, d);
    }
    forall d | d in t.calls
      ensures CallOk(t, d)
    {
      assert CallOk(s, d);
    }
  }

  lemma RemoveIsValid(s: Shared, id: Id16)
    requires s.Valid()
    ensures RemovePending(s, id).Valid()
  {
    forall key | key in RemovePending(s, id).pending
      ensures RemovePending(s, id).Empty(s.pending[key]) && s.channels[s.pending[key]].id == key
    {
      assert s.Empty(s.pending[key]);
    }
  }

  lemma WriteIsValid(s: Shared, bytes: seq<u8>)
    requires s.Valid()
    ensures WriteBytes(s, bytes).Valid()
  {
    forall key | key in s.pending
      ensures WriteBytes(s, bytes).Empty(s.pending[key]) && s.channels[s.pending[key]].id == key
    {
      assert s.Empty(s.pending[key]);
    }
  }

  lemma WriteKeepsInv(s: State, c: nat, fault: Option<nat>)
    requires Inv(s) && c in s.calls && NextWrite(s, c, fault).Some?
    ensures Inv(NextWrite(s, c, fault).value)
  {
    assert CallOk(s, c);
    if s.sh.writer.Some? {
      WriteIsValid(s.sh, if fault.None? then s.calls[c].frame.value else s.calls[c].frame.value[..fault.value]);
    }
    MoveKeepsInv(s, NextWrite(s, c, fault).value, c);
  }

  lemma LeaveKeepsInv(s: State, c: nat, sh: Shared, outcome: Outcome)
    requires Inv(s) && c in s.calls && !outcome.Replied?
    requires sh == s.sh || sh == RemovePending(s.sh, s.calls[c].id)
    ensures Inv(Leave(s, c, sh, outcome))
  {
    RemoveIsValid(s.sh, s.calls[c].id);
    MoveKeepsInv(s, Leave(s, c, sh, outcome), c);
  }

  lemma CancelWriteKeepsInv(s: State, c: nat, written: nat, contended: bool)
    requires Inv(s) && NextCall(s, c, CancelWrite(written, contended)).Some?
    ensures Inv(NextCall(s, c, CancelWrite(written, contended)).value)
  {
    var half := s.(sh := WriteBytes(s.sh, s.calls[c].frame.value[..written]), torn := true);
    WriteIsValid(s.sh, s.calls[c].frame.value[..written]);
    assert CallOk(s, c);
    MoveKeepsInv(s, half, c);
    LeaveKeepsInv(half, c, Drop(half, c, contended).sh, Cancelled);
  }

  lemma ReceiveKeepsInv(s: State, c: nat)
    requires Inv(s) && NextCall(s, c, Receive).Some?
    ensures Inv(NextCall(s, c, Receive).value)
  {
    assert ChannelOk(s, c);
    assert s.sh.channels[c].sent == [s.sh.channels[c].sent[0]];
    MoveKeepsInv(s, NextCall(s, c, Receive).value, c);
  }

  lemma CallKeepsInv(s: State, c: nat, a: CallStep)
    requires Inv(s) && NextCall(s, c, a).Some?
    ensures Inv(NextCall(s, c, a).value)
  {
    match a {
      case Insert => InsertKeepsInv(s, c);
      case Receive => ReceiveKeepsInv(s, c);
      case Write(fault) => WriteKeepsInv(s, c, fault);
      case Unregister => LeaveKeepsInv(s, c, RemovePending(s.sh, s.calls[c].id), ExitOutcome(s.calls[c].pc).value);
      case CancelWrite(written, contended) => CancelWriteKeepsInv(s, c, written, contended);
      case Cancel(contended) =>
        if s.calls[c].pc.Checked? {
          MoveKeepsInv(s, NextCall(s, c, a).value, c);
        } else {
          LeaveKeepsInv(s, c, Drop(s, c, contended).sh, Cancelled);
        }
      case _ =>
        assert CallOk(s, c);
        MoveKeepsInv(s, NextCall(s, c, a).value, c);
    }
  }

  // What a step of a call does, without its details.

  ghost predicate Moves(s: State, t: State, c: nat) {
    && c in s.calls && c in t.calls && t.calls == s.calls[c := t.calls[c]]
    && t.calls[c].id == s.calls[c].id && t.calls[c].frame == s.calls[c].frame
    && t.calls[c].command == s.calls[c].command
    && t.sh.channels == s.sh.channels
  }

  /** The call does not enter or leave. */
  ghost predicate Stays(s: State, t: State, c: nat) {
    && Moves(s, t, c)
    && t.sh.pending == s.sh.pending
    && (s.calls[c].InFlight() <==> t.calls[c].InFlight())
  }

  /** The call leaves: its entry is removed, or it had none, or (contended) it stays behind. */
  ghost predicate Leaves(s: State, t: State, c: nat, contended: bool) {
    && Moves(s, t, c)
    && s.calls[c].InFlight() && !t.calls[c].InFlight()
    && (t.sh.pending == s.sh.pending - {s.calls[c].id}
        || (t.sh.pending == s.sh.pending && (contended || !s.sh.Owns(c))))
  }

  lemma LeaveEffect(s: State, c: nat, sh: Shared, outcome: Outcome, contended: bool)
    requires Inv(s) && c in s.calls && s.calls[c].InFlight()
    requires sh == RemovePending(s.sh, s.calls[c].id) || (sh == s.sh && (contended || !s.sh.Owns(c)))
    ensures Leaves(s, Leave(s, c, sh, outcome), c, contended)
  {
  }

  lemma DropEffect(s: State, c: nat, contended: bool)
    requires Inv(s) && c in s.calls && s.calls[c].InFlight()
    ensures Leaves(s, Drop(s, c, contended), c, contended)
  {
    if !contended && s.pendingLock.Some? {
      assert !s.sh.Owns(c);
    }
    LeaveEffect(s, c, Drop(s, c, contended).sh, Cancelled, contended);
  }

  lemma MoveStays(s: State, t: State, c: nat, pc: CallPc)
    requires c in s.calls && t.calls == s.calls
    requires t.sh.pending == s.sh.pending && t.sh.channels == s.sh.channels
    requires s.calls[c].InFlight() <==> s.calls[c].(pc := pc).InFlight()
    ensures Stays(s, Move(t, c, pc), c)
  {
  }

  lemma WriteEffect(s: State, c: nat, fault: Option<nat>)
    requires Inv(s) && c in s.calls && NextWrite(s, c, fault).Some?
    ensures Stays(s, NextWrite(s, c, fault).value, c)
  {
    var frame := s.calls[c].frame.value;
    if s.sh.writer.None? {
      MoveStays(s, s.(writerLock := Some(c)), c, SawNoWriter);
    } else if fault.None? {
      MoveStays(s, s.(sh := WriteBytes(s.sh, frame), order := s.order + [c]), c, Waiting);
    } else {
      MoveStays(s, s.(sh := WriteBytes(s.sh, frame[..fault.value]), torn := true), c, WriteFailed);
    }
  }

  lemma ReceiveEffect(s: State, c: nat)
    requires Inv(s) && NextCall(s, c, Receive).Some?
    ensures Leaves(s, NextCall(s, c, Receive).value, c, false)
  {
    if s.sh.Owns(c) {
      OwnerIsEmpty(s.sh, c);
    }
  }

  lemma CancelEffect(s: State, c: nat, contended: bool)
    requires Inv(s) && NextCall(s, c, Cancel(contended)).Some?
    ensures var t := NextCall(s, c, Cancel(contended)).value;
            Stays(s, t, c) || Leaves(s, t, c, contended)
  {
    if !s.calls[c].pc.Checked? {
      DropEffect(s, c, contended);
    }
  }

  lemma CancelWriteEffect(s: State, c: nat, written: nat, contended: bool)
    requires Inv(s) && NextCall(s, c, CancelWrite(written, contended)).Some?
    ensures Leaves(s, NextCall(s, c, CancelWrite(written, contended)).value, c, contended)
  {
    if !contended && s.pendingLock.Some? {
      assert !s.sh.Owns(c);
    }
  }

  lemma CallEffect(s: State, c: nat, a: CallStep)
    requires Inv(s) && NextCall(s, c, a).Some? && !a.Insert?
    ensures var t := NextCall(s, c, a).value;
            Stays(s, t, c) || Leaves(s, t, c, Contended(ByCall(c, a)))
  {
    match a {
      case Write(fault) => WriteEffect(s, c, fault);
      case Unregister =>
        LeaveEffect(s, c, RemovePending(s.sh, s.calls[c].id), ExitOutcome(s.calls[c].pc).value, false);
      case Receive => ReceiveEffect(s, c);
      case Cancel(contended) => CancelEffect(s, c, contended);
      case CancelWrite(written, contended) => CancelWriteEffect(s, c, written, contended);
      case _ =>
    }
  }

  /** A cancellation whose `try_lock` finds the mutex held by someone else. */
  predicate Contended(a: Action) {
    a.ByCall? && ((a.callStep.Cancel? && a.callStep.contended) || (a.callStep.CancelWrite? && a.callStep.contended))
  }

  lemma BeginKeepsInv(s: State, c: nat, command: Command)
    requires Inv(s) && NextBegin(s, c, command).Some?
    ensures Inv(NextBegin(s, c, command).value)
  {
    var t := NextBegin(s, c, command).value;
    forall d | d in t.sh.channels
      ensures ChannelOk(t, d)
    {
      assert ChannelOk(s, d);
    }
    forall d | d in t.calls
      ensures CallOk(t, d)
    {
      assert d != c ==> CallOk(s, d);
    }
  }

  /** Only the flag, the writer or the wire differ. */
  lemma SameAnswers(s: Shared, t: Shared)
    requires s.Valid() && t.pending == s.pending && t.channels == s.channels
    ensures Answers(s, t)
  {
    forall key | key in t.pending
      ensures t.Empty(t.pending[key]) && t.channels[t.pending[key]].id == key
    {
      assert s.Empty(s.pending[key]);
    }
  }

  // What readers, closers and openers do to the rest of the state.

  /** The writer is left alone or taken, and nothing is written. */
  ghost predicate OnlyTakes(s: State, t: State) {
    && (t.sh.writer == s.sh.writer || t.sh.writer.None?)
    && t.sh.wire == s.sh.wire && t.order == s.order && t.torn == s.torn
  }

  lemma ReaderAnswers(s: State, r: nat, a: ReaderStep)
    requires Inv(s) && NextReader(s, r, a).Some?
    ensures var t := NextReader(s, r, a).value;
            Answers(s.sh, t.sh) && t.calls == s.calls && LocksOk(t) && OnlyTakes(s, t)
  {
    match a {
      case Frame(header, data) =>
        RoutingKeyIsHeaderId(header, data);
        DeliverAnswers(s.sh, header, data);
      case DrainAll => DrainAnswers(s.sh, Broken);
      case FailExtra => DrainAnswers(s.sh, Closed);
      case _ => SameAnswers(s.sh, NextReader(s, r, a).value.sh);
    }
  }

  lemma CloserAnswers(s: State, k: nat, a: CloserStep)
    requires Inv(s) && NextCloser(s, k, a).Some?
    ensures var t := NextCloser(s, k, a).value;
            Answers(s.sh, t.sh) && t.calls == s.calls && LocksOk(t) && OnlyTakes(s, t)
  {
    if a.WakeAll? {
      DrainAnswers(s.sh, Closed);
    } else {
      SameAnswers(s.sh, NextCloser(s, k, a).value.sh);
    }
  }

  lemma OpenerAnswers(s: State, o: nat, a: OpenerStep)
    requires Inv(s) && NextOpener(s, o, a).Some?
    ensures var t := NextOpener(s, o, a).value;
            Answers(s.sh, t.sh) && t.calls == s.calls && LocksOk(t)
            && (OnlyTakes(s, t) || (t.sh.wire == [] && t.order == [] && !t.torn))
  {
    SameAnswers(s.sh, NextOpener(s, o, a).value.sh);
  }

  lemma OthersAnswer(s: State, a: Action)
    requires Inv(s) && !a.Begin? && !a.ByCall? && Next(s, a).Some?
    ensures var t := Next(s, a).value;
            Answers(s.sh, t.sh) && t.calls == s.calls && LocksOk(t)
            && (OnlyTakes(s, t) || (a.ByOpener? && t.sh.wire == [] && t.order == [] && !t.torn))
  {
    match a {
      case ByReader(r, step) => ReaderAnswers(s, r, step);
      case ByCloser(k, step) => CloserAnswers(s, k, step);
      case ByOpener(o, step) => OpenerAnswers(s, o, step);
    }
  }

  lemma StepKeepsInv(s: State, a: Action)
    requires Inv(s) && Next(s, a).Some?
    ensures Inv(Next(s, a).value)
  {
    match a {
      case Begin(c, command) => BeginKeepsInv(s, c, command);
      case ByCall(c, step) => CallKeepsInv(s, c, step);
      case _ =>
        OthersAnswer(s, a);
        AnswersKeepInv(s, Next(s, a).value);
    }
  }

  lemma {:induction false} RunKeepsInv(s: State, actions: seq<Action>)
    requires Inv(s) && Run(s, actions).Some?
    ensures Inv(Run(s, actions).value)
    decreases |actions|
  {
    if actions != [] {
      RunKeepsInv(s, actions[..|actions| - 1]);
      StepKeepsInv(Run(s, actions[..|actions| - 1]).value, actions[|actions| - 1]);
    }
  }
}
