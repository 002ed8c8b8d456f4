/** The connection object: `send_command`, `close` and what the reader thread does, one region at a time, with the
    other threads running in between (src/blocking/connection.rs). */
module Connection {
  import opened Bytes
  import opened Protocol
  import opened Commands
  import opened Codec
  import opened ConnectionState
  import opened ConnectionRuns

  /** How a call ends: with what its channel received, or with an error of its own. */
  datatype Reply = Got(message: Message) | Failed(error: SlockError)

  // ---------------------------------------------------------------- what a call did, region by region

  /** One region of a call: the shared state it found, the step it made there, and the state it left. */
  datatype Region = Region(before: Shared, step: CallStep, after: Shared)

  /** The machine seen by one call that has every mutex it asks for. */
  ghost function Alone(sh: Shared, c: nat, call: Call): State {
    FRESH.(sh := sh, calls := map[c := call])
  }

  /** Every region is the machine's step, and together they take the call to its end. */
  ghost predicate Plays(c: nat, call: Call, regions: seq<Region>, end: CallPc)
    decreases |regions|
  {
    if regions == [] then call.pc == end
    else exists next :: Makes(c, call, regions[0], next) && Plays(c, next, regions[1..], end)
  }

  /** The region is a step of the machine that turns the call into `next`. */
  ghost predicate Makes(c: nat, call: Call, region: Region, next: Call) {
    var t := NextCall(Alone(region.before, c, call), c, region.step);
    t.Some? && t.value.sh == region.after && t.value.calls == map[c := next]
  }

  /** Between the regions, and only there, the other threads ran. */
  ghost predicate Interleaved(from: Shared, regions: seq<Region>, others: nat -> Shared -> Shared, k: nat,
                              final: Shared)
    decreases |regions|
  {
    if regions == [] then from == final
    else regions[0].before == others(k)(from) && Interleaved(regions[0].after, regions[1..], others, k + 1, final)
  }

  /** From one shared state to another, region by region with the others in between, the call gets to its end. */
  ghost predicate Performs(c: nat, call: Call, from: Shared, regions: seq<Region>, others: nat -> Shared -> Shared,
                           k: nat, final: Shared, end: CallPc)
  {
    Interleaved(from, regions, others, k, final) && Plays(c, call, regions, end)
  }

  lemma PerformFirst(c: nat, call: Call, from: Shared, region: Region, next: Call, rest: seq<Region>,
                     others: nat -> Shared -> Shared, k: nat, final: Shared, end: CallPc)
    requires region.before == others(k)(from) && Makes(c, call, region, next)
    requires Performs(c, next, region.after, rest, others, k + 1, final, end)
    ensures Performs(c, call, from, [region] + rest, others, k, final, end)
  {
    assert ([region] + rest)[1..] == rest;
  }

  lemma PerformLast(c: nat, call: Call, from: Shared, region: Region, next: Call, others: nat -> Shared -> Shared,
                    k: nat)
    requires region.before == others(k)(from) && Makes(c, call, region, next)
    ensures Performs(c, call, from, [region], others, k, region.after, next.pc)
  {
    assert Plays(c, next, [], next.pc) && [region][1..] == [];
  }

  /** The reply for each way a call can end. */
  ghost predicate Reports(r: Reply, outcome: Outcome, command: Command) {
    match outcome
    case SawClosed => r == Failed(ClientClosed)
    case EncodeFailed => EncodeCommand(command).Err? && r == Failed(EncodeCommand(command).error)
    case NoWriter => r == Failed(NotConnected)
    case WriteError => r == Failed(Io)
    case Replied(m) => r == Got(m)
    case Disconnected => r == Failed(ClientClosed)
    case TimedOut => r == Failed(CommandTimeout)
    case Cancelled => false
  }

  /** A call as it stands after the closed check. */
  ghost function Entered(sh: Shared, c: nat, command: Command): Call {
    NextBegin(FRESH.(sh := sh), c, command).value.calls[c]
  }

  /** When the mutexes are free, a region is the machine's step for a call among any others exactly when it is one for
      the call alone. */
  lemma RegionIsStep(s: State, c: nat, region: Region, next: Call)
    requires c in s.calls && region.before == s.sh && s.pendingLock.None?
    requires s.writerLock.None? || (s.writerLock == Some(c) && s.calls[c].pc.SawNoWriter?)
    ensures Makes(c, s.calls[c], region, next)
       <==> var t := NextCall(s, c, region.step);
            t.Some? && t.value.sh == region.after && t.value.calls == s.calls[c := next]
  {
    StepAlone(s, c, region.step);
    if NextCall(s, c, region.step).Some? {
      var t := NextCall(s, c, region.step).value;
      assert (t.calls[c] == next) <==> (t.calls == s.calls[c := next]) by {
        assert s.calls[c := next][c] == next;
      }
      assert map[c := t.calls[c]] == map[c := next] <==> t.calls[c] == next by {
        assert map[c := next][c] == next;
      }
    }
  }

  /** The same step, taken among others and alone. */
  ghost predicate Agree(s: State, c: nat, t: Option<State>, alone: Option<State>) {
    match t
    case None => alone.None?
    case Some(t) =>
      alone.Some? && c in t.calls && alone.value.sh == t.sh && alone.value.calls == map[c := t.calls[c]]
      && t.calls == s.calls[c := t.calls[c]]
  }

  lemma StepAlone(s: State, c: nat, a: CallStep)
    requires c in s.calls && s.pendingLock.None?
    requires s.writerLock.None? || (s.writerLock == Some(c) && s.calls[c].pc.SawNoWriter?)
    ensures Agree(s, c, NextCall(s, c, a), NextCall(Alone(s.sh, c, s.calls[c]), c, a))
  {
    var alone := Alone(s.sh, c, s.calls[c]);
    match a {
      case Write(fault) => WriteAlone(s, alone, c, fault);
      case Unregister => UnregisterAlone(s, alone, c);
      case Cancel(contended) => CancelAlone(s, alone, c, contended);
      case CancelWrite(written, contended) => CancelWriteAlone(s, alone, c, written, contended);
      case Insert => OtherAlone(s, alone, c, a);
      case FailEncode => OtherAlone(s, alone, c, a);
      case Receive => OtherAlone(s, alone, c, a);
      case Disconnect => OtherAlone(s, alone, c, a);
      case Expire => OtherAlone(s, alone, c, a);
    }
  }

  lemma WriteAlone(s: State, alone: State, c: nat, fault: Option<nat>)
    requires c in s.calls && alone == Alone(s.sh, c, s.calls[c])
    requires s.writerLock.None? || s.calls[c].pc.SawNoWriter?
    ensures Agree(s, c, NextWrite(s, c, fault), NextWrite(alone, c, fault))
  {
    var call := s.calls[c];
    if call.pc.Inserted? && call.frame.Ok? {
      var frame := call.frame.value;
      if s.sh.writer.None? {
        MoveAlone(s.(writerLock := Some(c)), alone.(writerLock := Some(c)), c, SawNoWriter);
      } else if fault.None? {
        var sh := WriteBytes(s.sh, frame);
        MoveAlone(s.(sh := sh, order := s.order + [c]), alone.(sh := sh, order := alone.order + [c]), c, Waiting);
      } else if fault.value <= |frame| {
        var sh := WriteBytes(s.sh, frame[..fault.value]);
        MoveAlone(s.(sh := sh, torn := true), alone.(sh := sh, torn := true), c, WriteFailed);
      }
    }
  }

  lemma MoveAlone(s: State, alone: State, c: nat, pc: CallPc)
    requires c in s.calls && alone.calls == map[c := s.calls[c]] && alone.sh == s.sh
    ensures Agree(s, c, Some(Move(s, c, pc)), Some(Move(alone, c, pc)))
  {
  }

  lemma LeaveAlone(s: State, alone: State, c: nat, sh: Shared, outcome: Outcome)
    requires c in s.calls && alone.calls == map[c := s.calls[c]]
    ensures Agree(s, c, Some(Leave(s, c, sh, outcome)), Some(Leave(alone, c, sh, outcome)))
  {
  }

  lemma UnregisterAlone(s: State, alone: State, c: nat)
    requires c in s.calls && alone == Alone(s.sh, c, s.calls[c]) && s.pendingLock.None?
    ensures Agree(s, c, NextUnregister(s, c), NextUnregister(alone, c))
  {
    var outcome := ExitOutcome(s.calls[c].pc);
    if outcome.Some? {
      LeaveAlone(s, alone, c, RemovePending(s.sh, s.calls[c].id), outcome.value);
    }
  }

  lemma CancelAlone(s: State, alone: State, c: nat, contended: bool)
    requires c in s.calls && alone == Alone(s.sh, c, s.calls[c]) && s.pendingLock.None?
    ensures Agree(s, c, NextCall(s, c, Cancel(contended)), NextCall(alone, c, Cancel(contended)))
  {
    LeaveAlone(s, alone, c, Drop(s, c, contended).sh, Cancelled);
  }

  lemma CancelWriteAlone(s: State, alone: State, c: nat, written: nat, contended: bool)
    requires c in s.calls && alone == Alone(s.sh, c, s.calls[c]) && s.pendingLock.None?
    requires s.writerLock.None? || s.calls[c].pc.SawNoWriter?
    ensures var a := CancelWrite(written, contended);
            Agree(s, c, NextCall(s, c, a), NextCall(alone, c, a))
  {
    if s.calls[c].frame.Ok? && written <= |s.calls[c].frame.value| {
      var sh := WriteBytes(s.sh, s.calls[c].frame.value[..written]);
      var half, halfAlone := s.(sh := sh, torn := true), alone.(sh := sh, torn := true);
      LeaveAlone(half, halfAlone, c, Drop(half, c, contended).sh, Cancelled);
    }
  }

  lemma OtherAlone(s: State, alone: State, c: nat, a: CallStep)
    requires c in s.calls && alone == Alone(s.sh, c, s.calls[c]) && s.pendingLock.None?
    requires a.Insert? || a.FailEncode? || a.Receive? || a.Disconnect? || a.Expire?
    ensures Agree(s, c, NextCall(s, c, a), NextCall(alone, c, a))
  {
  }

  // The steps a call makes, each put in front of what the call does next.

  lemma InsertFirst(c: nat, call: Call, from: Shared, rest: seq<Region>, others: nat -> Shared -> Shared, k: nat,
    final: Shared, end: CallPc) returns (regions: seq<Region>)
    requires call.pc.Checked? && call.frame.Ok?
    requires Performs(c, call.(pc := Inserted), InsertPending(others(k)(from), c, call.id), rest, others, k + 1, final,
                      end)
    ensures Performs(c, call, from, regions, others, k, final, end)
  {
    var region := Region(others(k)(from), CallStep.Insert, InsertPending(others(k)(from), c, call.id));
    regions := [region] + rest;
    PerformFirst(c, call, from, region, call.(pc := Inserted), rest, others, k, final, end);
  }

  lemma NoWriterFirst(c: nat, call: Call, from: Shared, rest: seq<Region>, others: nat -> Shared -> Shared, k: nat,
    final: Shared, end: CallPc) returns (regions: seq<Region>)
    requires call.pc.Inserted? && call.frame.Ok? && others(k)(from).writer.None?
    requires Performs(c, call.(pc := SawNoWriter), others(k)(from), rest, others, k + 1, final, end)
    ensures Performs(c, call, from, regions, others, k, final, end)
  {
    var region := Region(others(k)(from), Write(None), others(k)(from));
    regions := [region] + rest;
    PerformFirst(c, call, from, region, call.(pc := SawNoWriter), rest, others, k, final, end);
  }

  lemma WriteFirst(c: nat, call: Call, from: Shared, rest: seq<Region>, others: nat -> Shared -> Shared, k: nat,
    final: Shared, end: CallPc) returns (regions: seq<Region>)
    requires call.pc.Inserted? && call.frame.Ok? && others(k)(from).writer.Some?
    requires Performs(c, call.(pc := Waiting), WriteBytes(others(k)(from), call.frame.value), rest, others, k + 1,
                      final, end)
    ensures Performs(c, call, from, regions, others, k, final, end)
  {
    var region := Region(others(k)(from), Write(None), WriteBytes(others(k)(from), call.frame.value));
    regions := [region] + rest;
    PerformFirst(c, call, from, region, call.(pc := Waiting), rest, others, k, final, end);
  }

  lemma TornWriteFirst(c: nat, call: Call, n: nat, from: Shared, rest: seq<Region>, others: nat -> Shared -> Shared,
    k: nat, final: Shared, end: CallPc) returns (regions: seq<Region>)
    requires call.pc.Inserted? && call.frame.Ok? && others(k)(from).writer.Some? && n <= |call.frame.value|
    requires Performs(c, call.(pc := WriteFailed), WriteBytes(others(k)(from), call.frame.value[..n]), rest, others,
                      k + 1, final, end)
    ensures Performs(c, call, from, regions, others, k, final, end)
  {
    var region := Region(others(k)(from), Write(Some(n)), WriteBytes(others(k)(from), call.frame.value[..n]));
    regions := [region] + rest;
    PerformFirst(c, call, from, region, call.(pc := WriteFailed), rest, others, k, final, end);
  }

  lemma ExpireFirst(c: nat, call: Call, from: Shared, rest: seq<Region>, others: nat -> Shared -> Shared, k: nat,
    final: Shared, end: CallPc) returns (regions: seq<Region>)
    requires call.pc.Waiting? && others(k)(from).Empty(c) && others(k)(from).Owns(c)
    requires Performs(c, call.(pc := Expired), others(k)(from), rest, others, k + 1, final, end)
    ensures Performs(c, call, from, regions, others, k, final, end)
  {
    var region := Region(others(k)(from), Expire, others(k)(from));
    regions := [region] + rest;
    PerformFirst(c, call, from, region, call.(pc := Expired), rest, others, k, final, end);
  }

  lemma ReceiveLast(c: nat, call: Call, from: Shared, others: nat -> Shared -> Shared, k: nat)
    returns (regions: seq<Region>)
    requires call.pc.Waiting? && c in others(k)(from).channels && others(k)(from).channels[c].sent != []
    ensures Performs(c, call, from, regions, others, k, others(k)(from),
                     Done(Replied(others(k)(from).channels[c].sent[0])))
  {
    var region := Region(others(k)(from), CallStep.Receive, others(k)(from));
    regions := [region];
    PerformLast(c, call, from, region, call.(pc := Done(Replied(others(k)(from).channels[c].sent[0]))), others, k);
  }

  lemma DisconnectLast(c: nat, call: Call, from: Shared, others: nat -> Shared -> Shared, k: nat)
    returns (regions: seq<Region>)
    requires call.pc.Waiting? && others(k)(from).Empty(c) && !others(k)(from).Owns(c)
    ensures Performs(c, call, from, regions, others, k, others(k)(from), Done(Disconnected))
  {
    var region := Region(others(k)(from), Disconnect, others(k)(from));
    regions := [region];
    PerformLast(c, call, from, region, call.(pc := Done(Disconnected)), others, k);
  }

  lemma UnregisterLast(c: nat, call: Call, from: Shared, others: nat -> Shared -> Shared, k: nat)
    returns (regions: seq<Region>)
    requires ExitOutcome(call.pc).Some?
    ensures Performs(c, call, from, regions, others, k, RemovePending(others(k)(from), call.id),
                     Done(ExitOutcome(call.pc).value))
  {
    var region := Region(others(k)(from), CallStep.Unregister, RemovePending(others(k)(from), call.id));
    regions := [region];
    PerformLast(c, call, from, region, call.(pc := Done(ExitOutcome(call.pc).value)), others, k);
  }

  // ---------------------------------------------------------------- the init exchange

  /** What `open` makes of the answer to its init command: the init type, or why it gives up. */
  function InitType(header: Header): Result<u8> {
    var response :- DecodeResponse(header, None);
    var code := match response
                case InitResult(_, code, _) => code
                case PingResult(_, code) => code
                case LockResult(lock) => lock.result;
    if code != COMMAND_RESULT_SUCCED then Err(Server(code))
    else if !response.InitResult? then Err(ProtocolError(ExpectedInitResult))
    else Ok(response.initType)
  }

  /** An init answer is good exactly when its header is, its type byte is nought and its result byte is nought; the
      init type is the byte after. */
  lemma GoodInitExactly(header: Header)
    ensures InitType(header).Ok? <==> header[0] == 0x56 && header[1] == 0x01 && header[2] == 0x00 && header[19] == 0x00
    ensures InitType(header).Ok? ==> InitType(header).value == header[20]
    ensures DecodeResponse(header, None).Ok? && header[19] != 0x00 ==> InitType(header) == Err(Server(header[19]))
    ensures DecodeResponse(header, None).Ok? && header[19] == 0x00 && header[2] != 0x00 ==>
              InitType(header) == Err(ProtocolError(ExpectedInitResult))
    ensures DecodeResponse(header, None).Err? ==> InitType(header) == Err(DecodeResponse(header, None).error)
  {
  }

  // ---------------------------------------------------------------- the regions of closers, openers and readers

  /** What a closer's region does to the shared state. */
  function CloserRegion(s: Shared, a: CloserStep): Shared {
    match a
    case StoreClosed => s.(closed := true)
    case TakeStream => s.(writer := None)
    case WakeAll => DrainPending(s, Closed)
  }

  /** What a reader's region does to it. */
  function ReaderRegion(s: Shared, a: ReaderStep): Shared {
    match a
    case Frame(header, data) => DeliverTo(s, header[3..19], Message.Answer(header, data))
    case FailHeader => s
    case DrainAll => DrainPending(s, Broken)
    case TakeWriter => s.(writer := None)
    case FailExtra => DrainPending(s, Closed)
  }

  /** What an opener's region does to it; `Spawn` starts the reader and touches nothing. */
  function OpenerRegion(s: Shared, a: OpenerStep): Shared {
    match a
    case Look => s
    case ResetClosed => s.(closed := false)
    case FailConnect => s
    case Connect(stream) => s.(writer := Some(stream), wire := [])
    case Spawn => s
  }

  /** With the writer mutex free, an opener's region is the machine's step, enabled exactly in the order of the
      regions. */
  lemma OpenerRegionIsStep(s: State, o: nat, a: OpenerStep)
    requires s.writerLock.None?
    ensures NextOpener(s, o, a).Some?
       <==> match a
            case Look => o !in s.openers
            case ResetClosed => o in s.openers && s.openers[o] == MustConnect
            case FailConnect => o in s.openers && s.openers[o] == Connecting
            case Connect(_) => o in s.openers && s.openers[o] == Connecting
            case Spawn => o in s.openers && s.openers[o].Spawning? && s.openers[o].stream !in s.readers
    ensures NextOpener(s, o, a).Some? ==>
              var t := NextOpener(s, o, a).value;
              && t.sh == OpenerRegion(s.sh, a) && t.calls == s.calls && t.closers == s.closers
              && t.openers == s.openers[o := match a
                                             case Look => if s.sh.writer.Some? then Opened else MustConnect
                                             case ResetClosed => Connecting
                                             case Connect(stream) => Spawning(stream)
                                             case _ => Opened]
              && t.readers == if a.Spawn? then s.readers[s.openers[o].stream := Reading] else s.readers
  {
  }

  /** With the mutexes free, a closer's region is the machine's step, enabled exactly in the order of the regions, and
      does nothing else but move the closer on. */
  lemma CloserRegionIsStep(s: State, k: nat, a: CloserStep)
    requires s.writerLock.None? && s.pendingLock.None?
    ensures var was, sh := if k in s.closers then Some(s.closers[k]) else None, CloserRegion(s.sh, a);
            NextCloser(s, k, a)
            == match a
               case StoreClosed =>
                 if was.None? then Some(s.(sh := sh, closers := s.closers[k := Stored])) else None
               case TakeStream =>
                 if was == Some(Stored) then Some(s.(sh := sh, closers := s.closers[k := Took])) else None
               case WakeAll =>
                 if was == Some(Took) then Some(s.(sh := sh, closers := s.closers[k := Finished])) else None
  {
  }

  /** The pending mutex that a reader holds between its drain and its take. */
  function HeldAfter(a: ReaderStep, r: nat): Option<nat> {
    if a.DrainAll? then Some(r) else None
  }

  /** With the mutexes it asks for free, a reader's region is the machine's step, and does nothing else but move the
      reader on; from the drain to the take it keeps the pending mutex. */
  lemma ReaderRegionIsStep(s: State, r: nat, a: ReaderStep)
    requires s.writerLock.None? && (s.pendingLock.None? || (s.pendingLock == Some(r) && a.TakeWriter?))
    ensures NextReader(s, r, a).Some? ==>
              var t := NextReader(s, r, a).value;
              && r in s.readers && r in t.readers
              && t == s.(sh := ReaderRegion(s.sh, a), pendingLock := HeldAfter(a, r),
                         readers := s.readers[r := t.readers[r]])
              && t.readers[r] == match a
                                 case Frame(_, _) => Reading
                                 case FailHeader => if s.sh.closed then EndedSawClosed else Failing
                                 case DrainAll => Drained
                                 case TakeWriter => EndedTook
                                 case FailExtra => EndedExtra
    ensures NextReader(s, r, a).Some?
       <==> r in s.readers && match a
                              case Frame(header, data) =>
                                s.readers[r].Reading? && (data.Some? <==> ResponseHasExtraData(header))
                              case DrainAll => s.readers[r].Failing?
                              case TakeWriter => s.readers[r].Drained?
                              case _ => s.readers[r].Reading?
  {
    if a.Frame? {
      RoutingKeyIsHeaderId(a.header, a.data);
    }
    if r in s.readers {
      assert s.readers[r := s.readers[r]] == s.readers;
    }
  }

  class Connection {
    var closed: bool
    var writer: Option<nat>
    var pending: map<Id16, nat>
    var channels: map<nat, Channel>
    var wire: seq<u8>

    ghost function Abs(): Shared
      reads this
    {
      Shared(closed, writer, pending, channels, wire)
    }

    constructor ()
      ensures Abs() == Shared(false, None, map[], map[], [])
    {
      closed := false;
      writer := None;
      pending := map[];
      channels := map[];
      wire := [];
    }

    method Insert(call: nat, id: Id16)
      modifies this
      ensures Abs() == InsertPending(old(Abs()), call, id)
    {
      channels := channels[call := Channel(id, [])];
      pending := pending[id := call];
    }

    method Remove(id: Id16)
      modifies this`pending
      ensures Abs() == RemovePending(old(Abs()), id)
    {
      pending := pending - {id};
    }

    /** The reader's last lines: decode, take the routing key, remove the entry and send under one lock. */
    method Deliver(header: Header, data: Option<seq<u8>>)
      modifies this`pending, this`channels
      ensures Abs() == ReaderRegion(old(Abs()), Frame(header, data))
    {
      var key := RoutingKey(header, data);
      RoutingKeyIsHeaderId(header, data);
      if key in pending {
        var call := pending[key];
        pending := pending - {key};
        channels := Send(channels, call, Answer(header, data));
      }
    }

    /** The drain loop shared by `wake_all` and the reader's two failure branches. */
    method Drain(m: Message)
      requires Abs().Valid()
      modifies this`pending, this`channels
      ensures Abs() == DrainPending(old(Abs()), m)
    {
      ghost var before := Abs();
      assert channels == DrainedTo(before, m, pending);
      while pending != map[]
        invariant PartOf(pending, before.pending)
        invariant Abs() == before.(pending := pending, channels := DrainedTo(before, m, pending))
        decreases pending.Keys
      {
        var id :| id in pending;
        var call := pending[id];
        DrainStep(before, m, pending, id);
        pending := pending - {id};
        channels := Send(channels, call, m);
      }
    }

    /** `open`: nothing when there is a writer; else the flag goes down, and a stream that connects and passes the init
        exchange becomes the writer. A reader has to be spawned for it. */
    method Open(stream: nat, init: Result<Header>, others: nat -> Shared -> Shared)
      returns (r: Result<()>, spawned: bool)
      modifies this
      ensures spawned <==> old(writer).None? && init.Ok? && InitType(init.value).Ok?
      ensures r == if old(writer).Some? || spawned then Ok(())
                   else if init.Err? then Err(init.error) else Err(InitType(init.value).error)
      ensures Abs() == if old(writer).Some? then OpenerRegion(old(Abs()), Look)
                       else var reset := OpenerRegion(others(0)(OpenerRegion(old(Abs()), Look)), ResetClosed);
                            if spawned then OpenerRegion(others(1)(reset), Connect(stream)) else reset
    {
      if writer.Some? {
        return Ok(()), false;
      }
      Others(others(0));
      closed := false;
      if init.Err? {
        return Err(init.error), false;
      }
      var initType := InitType(init.value);
      if initType.Err? {
        return Err(initType.error), false;
      }
      Others(others(1));
      writer, wire := Some(stream), [];
      return Ok(()), true;
    }

    /** `close`: three regions, the last of which answers everyone with ClientClosed. */
    method Close(others: nat -> Shared -> Shared)
      requires Abs().Valid() && forall k: nat, s: Shared :: s.Valid() ==> others(k)(s).Valid()
      modifies this
      ensures var stored := CloserRegion(old(Abs()), StoreClosed);
              var took := CloserRegion(others(0)(stored), TakeStream);
              Abs() == CloserRegion(others(1)(took), WakeAll)
    {
      closed := true;
      Others(others(0));
      writer := None;
      Others(others(1));
      Drain(Closed);
    }

    /** The reader's branch for a failed header read: unless the connection was closed on purpose everyone is told, and
        the writer is taken before the drained map is let go. */
    method HeaderFailed(others: nat -> Shared -> Shared)
      requires Abs().Valid() && forall k: nat, s: Shared :: s.Valid() ==> others(k)(s).Valid()
      modifies this
      ensures var drained := ReaderRegion(others(0)(ReaderRegion(old(Abs()), FailHeader)), DrainAll);
              Abs() == if old(closed) then ReaderRegion(old(Abs()), FailHeader)
                       else ReaderRegion(others(1)(drained), TakeWriter)
    {
      if !closed {
        Others(others(0));
        Drain(Broken);
        Others(others(1));
        writer := None;
      }
    }

    /** Its branch for failed extra data: everyone is told, and the writer stays. */
    method ExtraDataFailed()
      requires Abs().Valid()
      modifies this`pending, this`channels
      ensures Abs() == ReaderRegion(old(Abs()), FailExtra) && writer == old(writer)
    {
      Drain(Closed);
    }

    /** The other threads run. */
    method Others(step: Shared -> Shared)
      modifies this
      ensures Abs() == step(old(Abs()))
    {
      var next := step(Shared(closed, writer, pending, channels, wire));
      closed, writer, pending, channels, wire := next.closed, next.writer, next.pending, next.channels, next.wire;
    }

    /** `send_command` of call `call`: `others(k)` runs before region k, and `fault` is the outcome of the write, none
        or the number of bytes that got out before the error. Whatever the others do, the regions are steps of the
        machine that take the call from the closed check to the end the reply reports. */
    method SendCommand(call: nat, command: Command, others: nat -> Shared -> Shared, fault: Option<nat>)
      returns (r: Reply, ghost regions: seq<Region>, ghost outcome: Outcome)
      requires Abs().Valid() && call !in channels
      requires forall k: nat, s: Shared :: Rely(call, s, others(k)(s))
      modifies this
      ensures var seen := others(0)(old(Abs()));
              Performs(call, Entered(seen, call, command), seen, regions, others, 1, Abs(), Done(outcome))
      ensures Reports(r, outcome, command)
      ensures Abs().Valid() && !Abs().Owns(call)
      ensures call in channels ==> channels[call].id == command.RequestId() && |channels[call].sent| <= 1
      ensures r.Got? ==> call in channels && channels[call].sent == [r.message]
    {
      Others(others(0));
      if closed {
        return Failed(ClientClosed), [], SawClosed;
      }
      ghost var seen, entered := Abs(), Entered(Abs(), call, command);
      var encoded := EncodeRequest(command);
      if encoded.Err? {
        Others(others(1));
        regions := [Region(Abs(), FailEncode, Abs())];
        PerformLast(call, entered, seen, regions[0], entered.(pc := Done(EncodeFailed)), others, 1);
        return Failed(encoded.error), regions, EncodeFailed;
      }
      r, regions, outcome := Exchange(call, entered, command.RequestId(), encoded.value.Frame(), others, fault);
    }

    /** Insert before write: the entry is in the map when the frame goes out. */
    method Exchange(call: nat, ghost entered: Call, id: Id16, frame: seq<u8>, others: nat -> Shared -> Shared,
                    fault: Option<nat>)
      returns (r: Reply, ghost regions: seq<Region>, ghost outcome: Outcome)
      requires Abs().Valid() && call !in channels
      requires entered.pc.Checked? && entered.id == id && entered.frame == Ok(frame)
      requires forall k: nat, s: Shared :: Rely(call, s, others(k)(s))
      modifies this
      ensures Performs(call, entered, old(Abs()), regions, others, 1, Abs(), Done(outcome))
      ensures Reports(r, outcome, entered.command)
      ensures Live(Abs(), call, id) && !Abs().Owns(call)
      ensures r.Got? ==> channels[call].sent == [r.message]
    {
      Others(others(1));
      ghost var found := Abs();
      InsertIsLive(Abs(), call, id);
      Insert(call, id);
      r, regions, outcome := WriteFrame(call, entered.(pc := Inserted), id, frame, others, fault);
      regions := InsertFirst(call, entered, old(Abs()), regions, others, 1, Abs(), Done(outcome));
    }

    /** The region under the writer mutex, and what follows from it. */
    method WriteFrame(call: nat, ghost inserted: Call, id: Id16, frame: seq<u8>, others: nat -> Shared -> Shared,
                      fault: Option<nat>)
      returns (r: Reply, ghost regions: seq<Region>, ghost outcome: Outcome)
      requires Live(Abs(), call, id) && inserted.pc.Inserted? && inserted.id == id && inserted.frame == Ok(frame)
      requires forall k: nat, s: Shared :: Rely(call, s, others(k)(s))
      modifies this
      ensures Performs(call, inserted, old(Abs()), regions, others, 2, Abs(), Done(outcome))
      ensures Reports(r, outcome, inserted.command)
      ensures Live(Abs(), call, id) && !Abs().Owns(call)
      ensures r.Got? ==> channels[call].sent == [r.message]
    {
      OthersLive(call, id, others(2));
      if writer.None? {
        regions := GiveUp(call, inserted.(pc := SawNoWriter), id, others, 3);
        r, outcome := Failed(NotConnected), NoWriter;
        regions := NoWriterFirst(call, inserted, old(Abs()), regions, others, 2, Abs(), Done(outcome));
        return;
      }
      if fault.Some? {
        var n := if fault.value <= |frame| then fault.value else |frame|;
        wire := wire + frame[..n];
        regions := GiveUp(call, inserted.(pc := WriteFailed), id, others, 3);
        r, outcome := Failed(Io), WriteError;
        regions := TornWriteFirst(call, inserted, n, old(Abs()), regions, others, 2, Abs(), Done(outcome));
        return;
      }
      r, regions, outcome := WriteWhole(call, inserted, old(Abs()), id, frame, others);
    }

    /** The write that succeeds, and the wait after it. */
    method WriteWhole(call: nat, ghost inserted: Call, ghost from: Shared, id: Id16, frame: seq<u8>,
                      others: nat -> Shared -> Shared)
      returns (r: Reply, ghost regions: seq<Region>, ghost outcome: Outcome)
      requires Live(Abs(), call, id) && inserted.pc.Inserted? && inserted.id == id && inserted.frame == Ok(frame)
      requires Abs() == others(2)(from) && writer.Some?
      requires forall k: nat, s: Shared :: Rely(call, s, others(k)(s))
      modifies this
      ensures Performs(call, inserted, from, regions, others, 2, Abs(), Done(outcome))
      ensures Reports(r, outcome, inserted.command)
      ensures Live(Abs(), call, id) && !Abs().Owns(call)
      ensures r.Got? ==> channels[call].sent == [r.message]
    {
      wire := wire + frame;
      r, regions, outcome := Receive(call, inserted.(pc := Waiting), id, others);
      regions := WriteFirst(call, inserted, from, regions, others, 2, Abs(), Done(outcome));
    }

    /** `recv_timeout` and its three outcomes: a message, a timeout, or a sender that is gone. */
    method Receive(call: nat, ghost waiting: Call, id: Id16, others: nat -> Shared -> Shared)
      returns (r: Reply, ghost regions: seq<Region>, ghost outcome: Outcome)
      requires Live(Abs(), call, id) && waiting.pc.Waiting? && waiting.id == id
      requires forall k: nat, s: Shared :: Rely(call, s, others(k)(s))
      modifies this
      ensures Performs(call, waiting, old(Abs()), regions, others, 3, Abs(), Done(outcome))
      ensures Reports(r, outcome, waiting.command)
      ensures Live(Abs(), call, id) && !Abs().Owns(call)
      ensures r.Got? ==> channels[call].sent == [r.message]
    {
      OthersLive(call, id, others(3));
      if channels[call].sent != [] {
        r, outcome := Got(channels[call].sent[0]), Replied(channels[call].sent[0]);
        regions := ReceiveLast(call, waiting, old(Abs()), others, 3);
      } else if id in pending && pending[id] == call {
        regions := GiveUp(call, waiting.(pc := Expired), id, others, 4);
        r, outcome := Failed(CommandTimeout), TimedOut;
        regions := ExpireFirst(call, waiting, old(Abs()), regions, others, 3, Abs(), Done(outcome));
      } else {
        r, outcome := Failed(ClientClosed), Disconnected;
        regions := DisconnectLast(call, waiting, old(Abs()), others, 3);
      }
    }

    /** The entry is removed on the way out. */
    method GiveUp(call: nat, ghost leaving: Call, id: Id16, others: nat -> Shared -> Shared, k: nat)
      returns (ghost regions: seq<Region>)
      requires Live(Abs(), call, id) && leaving.id == id && ExitOutcome(leaving.pc).Some?
      requires forall k: nat, s: Shared :: Rely(call, s, others(k)(s))
      modifies this
      ensures Performs(call, leaving, old(Abs()), regions, others, k, Abs(), Done(ExitOutcome(leaving.pc).value))
      ensures Live(Abs(), call, id) && !Abs().Owns(call)
    {
      OthersLive(call, id, others(k));
      RemoveEnds(Abs(), call, id);
      Remove(id);
      regions := UnregisterLast(call, leaving, old(Abs()), others, k);
    }

    method OthersLive(call: nat, id: Id16, step: Shared -> Shared)
      requires Live(Abs(), call, id)
      requires Rely(call, Abs(), step(Abs()))
      modifies this
      ensures Live(Abs(), call, id) && Abs() == step(old(Abs()))
    {
      StaysLive(Abs(), step(Abs()), call, id);
      Others(step);
    }
  }

  // ---------------------------------------------------------------- cancellation of asynchronous calls

  /** The guard an asynchronous call holds from its insertion on; dropping the call's future drops the guard. */
  class PendingCleanup {
    const connection: Connection
    const requestId: Id16
    var active: bool

    constructor (connection: Connection, requestId: Id16)
      ensures this.connection == connection && this.requestId == requestId && active
    {
      this.connection, this.requestId := connection, requestId;
      active := true;
    }

    method Disarm()
      modifies this
      ensures !active
    {
      active := false;
    }

    /** `contended`: `try_lock` finds the pending mutex held. An armed guard does what the machine's cancellation does
        to any call that carries its id; a disarmed one does nothing. */
    method Drop(contended: bool)
      modifies connection`pending
      ensures active ==> forall c: nat, call: Call :: call.id == requestId ==>
                connection.Abs() == ConnectionRuns.Drop(Alone(old(connection.Abs()), c, call), c, contended).sh
      ensures !active ==> connection.Abs() == old(connection.Abs())
    {
      if active && !contended {
        connection.Remove(requestId);
      }
    }
  }
}
