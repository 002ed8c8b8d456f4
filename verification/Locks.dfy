/** Client-side locks over a backend that may answer anything (src/blocking/primitives.rs, src/time.rs). */
module Locks {
  import opened Bytes
  import opened Protocol
  import opened Ids
  import opened LockDataTrees
  import opened Commands
  import opened Bits

  // ---------------------------------------------------------------- packed times

  /** `PackedTime::with_flags` */
  function WithFlags(value: u16, flags: u16): u32 {
    flags * 0x1_0000 + value
  }

  function TimeValue(packed: u32): u16 {
    packed % 0x1_0000
  }

  function TimeFlags(packed: u32): u16 {
    packed / 0x1_0000
  }

  /** `merge_flags`, for the two flags the locks below merge in. */
  function MergeFlag(packed: u32, flag: u16): u32
    requires flag == TIMEOUT_FLAG_RCOUNT_IS_PRIORITY || flag == EXPRIED_FLAG_MILLISECOND_TIME
  {
    WithFlags(TimeValue(packed), SetFlag(TimeFlags(packed), flag))
  }

  /** Value and flags of a packed time come back. */
  lemma UnpackTime(value: u16, flags: u16)
    ensures TimeValue(WithFlags(value, flags)) == value && TimeFlags(WithFlags(value, flags)) == flags
  {
  }

  /** On the wire a packed time is its value and then its flags. */
  lemma PackedTimeBytes(value: u16, flags: u16)
    ensures LittleEndian(WithFlags(value, flags), 4)
         == [value % 256, value / 256, flags % 256, flags / 256]
  {
    var v, w, f, g := value % 256, value / 256, flags % 256, flags / 256;
    var high := w + 256 * (f + 256 * g);
    assert WithFlags(value, flags) == v + 256 * high;
    SplitLowByte(v, high);
    SplitLowByte(w, f + 256 * g);
    SplitLowByte(f, g);
    FourBytes(WithFlags(value, flags));
  }

  // ---------------------------------------------------------------- what a lock sends and how answers are read

  const ZERO_ID: Id16 := Zeros(16)

  /** The fields of a lock that go into its commands. */
  datatype LockSpec = LockSpec(
    dbId: u8, lockKey: Key16, lockId: Id16, timeout: u32, expired: u32, count: u16, rCount: u8)

  /** A command as a lock sends it, but for the fresh request id. */
  datatype Request = Request(commandType: u8, flag: u8, spec: LockSpec, data: Option<LockData>) {
    function ToCommand(requestId: Id16): Command {
      Lock(LockCommand(commandType, flag, spec.dbId, requestId, spec.lockKey, spec.lockId,
                       spec.timeout, spec.expired, spec.count, spec.rCount, data))
    }
  }

  function FlagFor(flag: u8, data: Option<LockData>): u8 {
    if data.None? then flag else
    assert HasFlag(flag, FLAG_CONTAINS_DATA) || flag + FLAG_CONTAINS_DATA < 0x100 by {
      ByteFlag(flag);
    }
    SetFlag(flag, FLAG_CONTAINS_DATA)
  }

  lemma ByteFlag(flag: u8)
    ensures HasFlag(flag, FLAG_CONTAINS_DATA) || flag + FLAG_CONTAINS_DATA < 0x100
    ensures HasFlag(SetFlag(flag, FLAG_CONTAINS_DATA), FLAG_CONTAINS_DATA)
  {
  }

  /** Data raises bit 0x20 of the flag byte and leaves the others alone; without data the byte is as given. */
  lemma FlagForIsBits(x: bv8, data: Option<LockData>)
    ensures FlagFor(x as int, data) as int == if data.Some? then (x | 0x20) as int else x as int
  {
    DataFlagIsBit(x);
  }

  function AcquireRequest(spec: LockSpec, flag: u8, data: Option<LockData>): Request {
    Request(COMMAND_TYPE_LOCK, FlagFor(flag, data), spec, data)
  }

  function ReleaseRequest(spec: LockSpec, flag: u8, data: Option<LockData>): Request {
    Request(COMMAND_TYPE_UNLOCK, FlagFor(flag, data), spec, data)
  }

  /** Whatever a lock sends survives the trip to the server: its data flag matches its data. */
  lemma LocksSendWellFormed(spec: LockSpec, flag: u8, data: Option<LockData>, requestId: Id16)
    requires data.Some? ==> WellFormed(data.value)
    ensures WellFormedCommand(AcquireRequest(spec, flag, data).ToCommand(requestId))
    ensures WellFormedCommand(ReleaseRequest(spec, flag, data).ToCommand(requestId))
  {
    ByteFlag(flag);
  }

  /** A lock made with a timeout of so many seconds, whatever flags are packed with it, waits for as many. */
  lemma TimeoutIsItsValue(spec: LockSpec, value: u16, flags: u16, flag: u8, data: Option<LockData>, requestId: Id16)
    requires spec.timeout == WithFlags(value, flags)
        && EncodeCommand(AcquireRequest(spec, flag, data).ToCommand(requestId)).Ok?
    ensures EncodeCommand(AcquireRequest(spec, flag, data).ToCommand(requestId)).value.timeout == value
  {
    UnpackTime(value, flags);
  }

  /** A lock's commands on the wire: type one or two, its flag byte, database, id, key, times, count and reentry
      count, each in its place. */
  lemma RequestOnTheWire(spec: LockSpec, flag: u8, data: Option<LockData>, requestId: Id16)
    ensures var h := HeaderOf(AcquireRequest(spec, flag, data).ToCommand(requestId));
            h[2] == 0x01 && h[3..19] == requestId && h[19] == FlagFor(flag, data) && FieldsInPlace(h, spec)
    ensures var h := HeaderOf(ReleaseRequest(spec, flag, data).ToCommand(requestId));
            h[2] == 0x02 && h[3..19] == requestId && h[19] == FlagFor(flag, data) && FieldsInPlace(h, spec)
  {
    LockHeaderSlices(AcquireRequest(spec, flag, data).ToCommand(requestId).lock);
    LockHeaderSlices(ReleaseRequest(spec, flag, data).ToCommand(requestId).lock);
    NumbersRead(AcquireRequest(spec, flag, data).ToCommand(requestId).lock,
                HeaderOf(AcquireRequest(spec, flag, data).ToCommand(requestId)));
    NumbersRead(ReleaseRequest(spec, flag, data).ToCommand(requestId).lock,
                HeaderOf(ReleaseRequest(spec, flag, data).ToCommand(requestId)));
  }

  ghost predicate FieldsInPlace(h: Header, spec: LockSpec) {
    && h[20] == spec.dbId && h[21..37] == spec.lockId && h[37..53] == spec.lockKey
    && ReadU32(h[53..57]) == spec.timeout && ReadU32(h[57..61]) == spec.expired
    && ReadU16(h[61..63]) == spec.count && h[63] == spec.rCount
  }

  /** `send_lock`'s reading of an answer. */
  function LockReply(answer: Result<CommandResult>): Result<LockCommandResult> {
    match answer
    case Ok(LockResult(r)) => Ok(r)
    case Ok(_) => Err(ProtocolError(ExpectedLockResult))
    case Err(e) => Err(e)
  }

  /** `apply_result`'s mapping of result codes. */
  function Applied(r: LockCommandResult): Result<LockCommandResult> {
    if r.result == COMMAND_RESULT_SUCCED then Ok(r)
    else if r.result == COMMAND_RESULT_LOCKED_ERROR then Err(LockLocked(r))
    else if r.result == COMMAND_RESULT_UNLOCK_ERROR then Err(LockUnlocked(r))
    else if r.result == COMMAND_RESULT_UNOWN_ERROR then Err(LockNotOwn(r))
    else if r.result == COMMAND_RESULT_TIMEOUT then Err(LockTimeout(r))
    else if r.result == COMMAND_RESULT_EXPRIED then Err(LockExpired(r))
    else if r.result == COMMAND_RESULT_STATE_ERROR then Err(StateError(r))
    else Err(Server(r.result))
  }

  function OutcomeOf(answer: Result<CommandResult>): Result<LockCommandResult> {
    var r :- LockReply(answer);
    Applied(r)
  }

  /** The result codes and what a caller sees for each; anything but a lock result is a protocol error, and an error
      in the place of an answer is passed on. */
  lemma OutcomeByCode(answer: Result<CommandResult>)
    ensures answer.Err? ==> OutcomeOf(answer) == Err(answer.error)
    ensures answer.Ok? && !answer.value.LockResult? ==> OutcomeOf(answer) == Err(ProtocolError(ExpectedLockResult))
    ensures answer.Ok? && answer.value.LockResult? ==>
              var k := answer.value.lock;
              OutcomeOf(answer) == match k.result
                                   case 0x00 => Ok(k)
                                   case 0x05 => Err(LockLocked(k))
                                   case 0x06 => Err(LockUnlocked(k))
                                   case 0x07 => Err(LockNotOwn(k))
                                   case 0x08 => Err(LockTimeout(k))
                                   case 0x09 => Err(LockExpired(k))
                                   case 0x0a => Err(StateError(k))
                                   case code => Err(Server(code))
  {
  }

  /** The server's answer grants the lock or says that it is held already: a lock result with code zero or five. An
      error that says so in its place counts too, though no connection makes one. */
  ghost predicate GrantedOrHeld(answer: Result<CommandResult>) {
    match answer
    case Ok(LockResult(k)) => k.result == 0x00 || k.result == 0x05
    case Ok(_) => false
    case Err(e) => e.LockLocked?
  }

  lemma TakenExactly(answer: Result<CommandResult>)
    ensures Taken(OutcomeOf(answer)) <==> GrantedOrHeld(answer)
  {
    OutcomeByCode(answer);
  }

  ghost function OutcomesOf(answers: nat -> Result<CommandResult>): nat -> Result<LockCommandResult> {
    (k: nat) => OutcomeOf(answers(k))
  }

  /** The data a lock remembers after an answer: that of the last result of any code; an error in its place changes
      nothing. */
  function DataAfter(was: Option<seq<u8>>, answer: Result<CommandResult>): Option<seq<u8>> {
    match LockReply(answer)
    case Ok(r) => r.data
    case Err(_) => was
  }

  /** The connection behind a lock: the k-th command sent gets the k-th answer, the k-th id drawn is `ids(k)`. */
  class Backend {
    const answers: nat -> Result<CommandResult>
    const ids: nat -> Id16
    var sent: seq<Request>
    var drawn: nat

    constructor (answers: nat -> Result<CommandResult>, ids: nat -> Id16)
      ensures this.answers == answers && this.ids == ids && sent == [] && drawn == 0
    {
      this.answers := answers;
      this.ids := ids;
      sent := [];
      drawn := 0;
    }

    method Send(request: Request) returns (answer: Result<CommandResult>)
      modifies this`sent
      ensures sent == old(sent) + [request]
      ensures answer == answers(|old(sent)|)
    {
      answer := answers(|sent|);
      sent := sent + [request];
    }

    method NewId() returns (id: Id16)
      modifies this`drawn
      ensures id == ids(old(drawn)) && drawn == old(drawn) + 1
    {
      id := ids(drawn);
      drawn := drawn + 1;
    }
  }

  class Lock {
    const backend: Backend
    const dbId: u8
    const lockKey: Key16
    const lockId: Id16
    var timeout: u32
    var expired: u32
    var count: u16
    var rCount: u8
    var currentData: Option<seq<u8>>

    ghost function Spec(): LockSpec
      reads this
    {
      LockSpec(dbId, lockKey, lockId, timeout, expired, count, rCount)
    }

    constructor (backend: Backend, dbId: u8, lockKey: Key16, lockId: Id16, timeout: u32, expired: u32, count: u16,
                 rCount: u8)
      ensures this.backend == backend && currentData == None
      ensures Spec() == LockSpec(dbId, lockKey, lockId, timeout, expired, count, rCount)
    {
      this.backend, this.dbId, this.lockKey, this.lockId := backend, dbId, lockKey, lockId;
      this.timeout, this.expired, this.count, this.rCount := timeout, expired, count, rCount;
      currentData := None;
    }

    /** `send_lock`: the lock's own fields, under the id given. */
    method SendLock(commandType: u8, flag: u8, id: Id16, data: Option<LockData>) returns (r: Result<LockCommandResult>)
      modifies backend`sent
      ensures backend.sent == old(backend.sent) + [Request(commandType, flag, Spec().(lockId := id), data)]
      ensures r == LockReply(backend.answers(|old(backend.sent)|))
    {
      var spec := LockSpec(dbId, lockKey, id, timeout, expired, count, rCount);
      var answer := backend.Send(Request(commandType, flag, spec, data));
      match answer {
        case Ok(LockResult(result)) => r := Ok(result);
        case Ok(_) => r := Err(ProtocolError(ExpectedLockResult));
        case Err(e) => r := Err(e);
      }
    }

    method ApplyResult(result: LockCommandResult) returns (r: Result<LockCommandResult>)
      modifies this`currentData
      ensures currentData == result.data && r == Applied(result)
    {
      currentData := result.data;
      r := Applied(result);
    }

    method AcquireWithFlags(flag: u8, data: Option<LockData>) returns (r: Result<LockCommandResult>)
      modifies backend`sent, this`currentData
      ensures backend.sent == old(backend.sent) + [AcquireRequest(old(Spec()), flag, data)]
      ensures r == OutcomeOf(backend.answers(|old(backend.sent)|))
      ensures currentData == DataAfter(old(currentData), backend.answers(|old(backend.sent)|))
    {
      var result := SendLock(COMMAND_TYPE_LOCK, FlagFor(flag, data), lockId, data);
      if result.Err? {
        return Err(result.error);
      }
      r := ApplyResult(result.value);
    }

    method ReleaseWithFlags(flag: u8, data: Option<LockData>) returns (r: Result<LockCommandResult>)
      modifies backend`sent, this`currentData
      ensures backend.sent == old(backend.sent) + [ReleaseRequest(old(Spec()), flag, data)]
      ensures r == OutcomeOf(backend.answers(|old(backend.sent)|))
      ensures currentData == DataAfter(old(currentData), backend.answers(|old(backend.sent)|))
    {
      var result := SendLock(COMMAND_TYPE_UNLOCK, FlagFor(flag, data), lockId, data);
      if result.Err? {
        return Err(result.error);
      }
      r := ApplyResult(result.value);
    }

    /** `release_head`: the first holder is released under the zero id, whoever it is. */
    method ReleaseHead(data: Option<LockData>) returns (r: Result<()>)
      modifies backend`sent, this`currentData
      ensures backend.sent
           == old(backend.sent) + [ReleaseRequest(old(Spec()).(lockId := Zeros(16)), 0x01, data)]
      ensures var outcome := OutcomeOf(backend.answers(|old(backend.sent)|));
              r == if outcome.Ok? then Ok(()) else Err(outcome.error)
      ensures currentData == DataAfter(old(currentData), backend.answers(|old(backend.sent)|))
    {
      var flag := FlagFor(UNLOCK_FLAG_UNLOCK_FIRST_LOCK_WHEN_UNLOCKED, data);
      var result := SendLock(COMMAND_TYPE_UNLOCK, flag, ZERO_ID, data);
      if result.Err? {
        return Err(result.error);
      }
      var applied := ApplyResult(result.value);
      r := if applied.Ok? then Ok(()) else Err(applied.error);
    }
  }

  // ---------------------------------------------------------------- leaf locks and their compensation

  /** A check lock counts as taken when it was granted or found already locked. */
  predicate Taken(r: Result<LockCommandResult>) {
    r.Ok? || r.error.LockLocked?
  }

  /** One lock command of an acquire: the lock and the flag it is acquired with. */
  datatype Attempt = Attempt(spec: LockSpec, flag: u8)

  function Releases(taken: seq<Attempt>): (rs: seq<Request>)
    ensures |rs| == |taken|
  {
    seq(|taken|, i requires 0 <= i < |taken| => ReleaseRequest(taken[i].spec, 0, None))
  }

  /** Everything an acquire sends, from the check locks still to try on, and its result. `outcomes(k)` is the outcome of
      the next command; what the releases answer is not looked at. */
  ghost function AcquireRun(checks: seq<Attempt>, taken: seq<Attempt>, leaf: Attempt,
                            outcomes: nat -> Result<LockCommandResult>, k: nat)
    : (seq<Request>, Result<LockCommandResult>)
  {
    var next := if checks == [] then leaf else checks[0];
    var request := AcquireRequest(next.spec, next.flag, None);
    if checks == [] then
      ([request] + (if outcomes(k).Ok? then [] else Releases(taken)), outcomes(k))
    else if Taken(outcomes(k)) then
      var (later, reply) := AcquireRun(checks[1..], taken + [checks[0]], leaf, outcomes, k + 1);
      ([request] + later, reply)
    else ([request] + Releases(taken), outcomes(k))
  }

  predicate IsRelease(r: Request) {
    r.commandType == COMMAND_TYPE_UNLOCK
  }

  /** The commands of a trace that acquire, in order. */
  ghost function Acquires(trace: seq<Request>): seq<Request> {
    if trace == [] then []
    else if IsRelease(trace[0]) then Acquires(trace[1..])
    else [trace[0]] + Acquires(trace[1..])
  }

  ghost function ReleasesOf(trace: seq<Request>): seq<Request> {
    if trace == [] then []
    else if IsRelease(trace[0]) then [trace[0]] + ReleasesOf(trace[1..])
    else ReleasesOf(trace[1..])
  }

  /** The release that undoes an acquire: same lock, same key, same id. */
  function Undo(r: Request): Request {
    ReleaseRequest(r.spec, 0, None)
  }

  /** Reading only the trace and the answers: the check locks that were taken, in the order they were. */
  ghost function TakenIn(trace: seq<Request>, answers: nat -> Result<CommandResult>, k: nat,
                         checks: nat): seq<Request> {
    if trace == [] || checks == 0 || IsRelease(trace[0]) then []
    else (if GrantedOrHeld(answers(k)) then [trace[0]] else []) + TakenIn(trace[1..], answers, k + 1, checks - 1)
  }

  ghost function Undone(rs: seq<Request>): seq<Request> {
    seq(|rs|, i requires 0 <= i < |rs| => Undo(rs[i]))
  }

  lemma {:induction false} OnlyReleases(rs: seq<Request>)
    requires forall r :: r in rs ==> IsRelease(r)
    ensures ReleasesOf(rs) == rs && Acquires(rs) == []
  {
    if rs != [] {
      OnlyReleases(rs[1..]);
      assert [rs[0]] + rs[1..] == rs;
    }
  }

  /** The compensation law, for any number of check locks and any answers. A failing acquire releases exactly the check
      locks the trace shows it took, in the order it took them and each by its own key and id; a successful one releases
      nothing; and the result is the outcome of the last acquiring command, whatever the releases answer. */
  lemma {:induction false} CompensationLaw(checks: seq<Attempt>, taken: seq<Attempt>, leaf: Attempt,
                                           answers: nat -> Result<CommandResult>, k: nat)
    ensures var (trace, reply) := AcquireRun(checks, taken, leaf, OutcomesOf(answers), k);
            Compensates(trace, reply, taken, answers, k, |checks|)
  {
    var (trace, reply) := AcquireRun(checks, taken, leaf, OutcomesOf(answers), k);
    var rest := trace[1..];
    TakenExactly(answers(k));
    if checks != [] && Taken(OutcomeOf(answers(k))) {
      CompensationLaw(checks[1..], taken + [checks[0]], leaf, answers, k + 1);
      assert trace == [trace[0]] + rest;
      OneMoreTaken(trace[0], rest, reply, taken, checks[0], answers, k, |checks| - 1);
    } else {
      OnlyReleases(rest);
      NothingTakenAfter(rest, answers, k + 1, if checks == [] then 0 else |checks| - 1);
      assert TakenIn(trace, answers, k, |checks|) == [];
    }
  }

  /** The law for a trace that starts with its k-th command and has so many checks to try. */
  ghost predicate Compensates(trace: seq<Request>, reply: Result<LockCommandResult>, taken: seq<Attempt>,
                              answers: nat -> Result<CommandResult>, k: nat, checks: nat)
  {
    && |Acquires(trace)| >= 1
    && reply == OutcomeOf(answers(k + |Acquires(trace)| - 1))
    && (reply.Ok? ==> ReleasesOf(trace) == [])
    && (reply.Err? ==> ReleasesOf(trace) == Releases(taken) + Undone(TakenIn(trace, answers, k, checks)))
  }

  lemma OneMoreTaken(request: Request, later: seq<Request>, reply: Result<LockCommandResult>, taken: seq<Attempt>,
                     check: Attempt, answers: nat -> Result<CommandResult>, k: nat, checks: nat)
    requires request == AcquireRequest(check.spec, check.flag, None) && GrantedOrHeld(answers(k))
    requires Compensates(later, reply, taken + [check], answers, k + 1, checks)
    ensures Compensates([request] + later, reply, taken, answers, k, checks + 1)
  {
    var trace := [request] + later;
    assert trace[0] == request && trace[1..] == later;
    var others := TakenIn(later, answers, k + 1, checks);
    assert TakenIn(trace, answers, k, checks + 1) == [request] + others;
    OneMoreRelease(taken, check, request);
    OneMoreUndone(request, others);
    assert Releases(taken) + ([Undo(request)] + Undone(others)) == Releases(taken) + [Undo(request)] + Undone(others);
  }

  lemma OneMoreRelease(taken: seq<Attempt>, check: Attempt, request: Request)
    requires request == AcquireRequest(check.spec, check.flag, None)
    ensures Releases(taken + [check]) == Releases(taken) + [Undo(request)]
  {
  }

  lemma OneMoreUndone(first: Request, later: seq<Request>)
    ensures Undone([first] + later) == [Undo(first)] + Undone(later)
  {
  }

  lemma NothingTakenAfter(rest: seq<Request>, answers: nat -> Result<CommandResult>, k: nat, checks: nat)
    requires forall r :: r in rest ==> IsRelease(r)
    ensures TakenIn(rest, answers, k, checks) == []
  {
  }

  /** What an acquire tries, in order: the checks and then the leaf. */
  ghost function Tries(checks: seq<Attempt>, leaf: Attempt): (rs: seq<Request>)
    ensures |rs| == |checks| + 1
  {
    seq(|checks| + 1, i requires 0 <= i <= |checks| =>
      var next := if i < |checks| then checks[i] else leaf; AcquireRequest(next.spec, next.flag, None))
  }

  /** An acquire tries the checks and the leaf in order, going on from a check exactly when the server granted it or
      said that it is held already; so it gets to the leaf exactly when that holds of every check. */
  lemma {:induction false} TriesInOrder(checks: seq<Attempt>, taken: seq<Attempt>, leaf: Attempt,
                                        answers: nat -> Result<CommandResult>, k: nat)
    ensures var acquires := Acquires(AcquireRun(checks, taken, leaf, OutcomesOf(answers), k).0);
            && 1 <= |acquires| <= |checks| + 1 && acquires == Tries(checks, leaf)[..|acquires|]
            && (forall i :: k <= i < k + |acquires| - 1 ==> GrantedOrHeld(answers(i)))
            && (|acquires| <= |checks| ==> !GrantedOrHeld(answers(k + |acquires| - 1)))
  {
    var trace := AcquireRun(checks, taken, leaf, OutcomesOf(answers), k).0;
    TakenExactly(answers(k));
    assert Acquires(trace) == [trace[0]] + Acquires(trace[1..]);
    if checks != [] && Taken(OutcomeOf(answers(k))) {
      var taken' := taken + [checks[0]];
      TriesInOrder(checks[1..], taken', leaf, answers, k + 1);
      assert trace[1..] == AcquireRun(checks[1..], taken', leaf, OutcomesOf(answers), k + 1).0;
      LaterTries(checks, leaf, Acquires(trace[1..]));
    } else {
      OnlyReleases(trace[1..]);
    }
  }

  lemma LaterTries(checks: seq<Attempt>, leaf: Attempt, later: seq<Request>)
    requires checks != [] && |later| <= |checks| && later == Tries(checks[1..], leaf)[..|later|]
    ensures [Tries(checks, leaf)[0]] + later == Tries(checks, leaf)[..|later| + 1]
  {
    assert forall i :: 0 <= i < |later| ==> Tries(checks, leaf)[i + 1] == Tries(checks[1..], leaf)[i];
  }

  /** A lock of a tree: its key, its parent's key if it has one, and the lock of one of its leaves. */
  class TreeLeafLock {
    const backend: Backend
    const dbId: u8
    const defaultTimeoutFlags: u16
    const defaultExpiredFlags: u16
    const treeKey: Key16
    const parentKey: Option<Key16>
    const treeExpired: u32
    const md5: seq<u8> -> Key16
    const lock: Lock

    constructor (backend: Backend, dbId: u8, timeoutFlags: u16, expiredFlags: u16, treeKey: Key16,
                 parentKey: Option<Key16>, treeExpired: u32, md5: seq<u8> -> Key16, lock: Lock)
      ensures this.backend == backend && this.dbId == dbId && defaultTimeoutFlags == timeoutFlags
      ensures defaultExpiredFlags == expiredFlags && this.treeKey == treeKey && this.parentKey == parentKey
      ensures this.treeExpired == treeExpired && this.md5 == md5 && this.lock == lock
    {
      this.backend, this.dbId, this.lock, this.md5 := backend, dbId, lock, md5;
      defaultTimeoutFlags, defaultExpiredFlags := timeoutFlags, expiredFlags;
      this.treeKey, this.parentKey, this.treeExpired := treeKey, parentKey, treeExpired;
    }

    /** A check lock: no waiting, shared, priority mode. */
    function CheckSpec(key: Key16, id: Id16): LockSpec {
      LockSpec(dbId, key, id, MergeFlag(WithFlags(0, defaultTimeoutFlags), TIMEOUT_FLAG_RCOUNT_IS_PRIORITY),
               WithFlags(TimeValue(treeExpired), defaultExpiredFlags), U16_MAX, 1)
    }

    /** On a child, the child key under the parent's id, then the parent key under the child's id; none on a root. */
    function Checks(): seq<Attempt> {
      if parentKey.None? then [] else
      [Attempt(CheckSpec(treeKey, parentKey.value), LOCK_FLAG_LOCK_TREE_LOCK),
       Attempt(CheckSpec(parentKey.value, treeKey), 0)]
    }

    method CheckLock(key: seq<u8>, id: Id16) returns (check: Lock)
      requires |key| == 16
      ensures fresh(check) && check.backend == backend && check.Spec() == CheckSpec(key, id)
    {
      check := new Lock(backend, dbId, NormalizeKey(key, md5), id, WithFlags(0, defaultTimeoutFlags),
                        WithFlags(TimeValue(treeExpired), defaultExpiredFlags), U16_MAX, 1);
      check.timeout := MergeFlag(check.timeout, TIMEOUT_FLAG_RCOUNT_IS_PRIORITY);
    }

    ghost function Outcomes(from: nat): nat -> Result<LockCommandResult> {
      (k: nat) => OutcomeOf(backend.answers(from + k))
    }

    /** The leaf lock itself is tried only when both checks were taken, and only then can its data change. */
    ghost predicate ReachesLeaf(from: nat) {
      forall i :: from <= i < from + |Checks()| ==> GrantedOrHeld(backend.answers(i))
    }

    method Acquire() returns (r: Result<LockCommandResult>)
      requires lock.backend == backend
      modifies backend`sent, lock`currentData
      ensures var leaf, outcomes := Attempt(old(lock.Spec()), 0), Outcomes(|old(backend.sent)|);
              var (trace, reply) := AcquireRun(Checks(), [], leaf, outcomes, 0);
              backend.sent == old(backend.sent) + trace && r == reply
      ensures lock.currentData == if ReachesLeaf(|old(backend.sent)|)
                                  then DataAfter(old(lock.currentData),
                                                 backend.answers(|old(backend.sent)| + |Checks()|))
                                  else old(lock.currentData)
    {
      if parentKey.None? {
        r := lock.AcquireWithFlags(0, None);
        assert Releases([]) == [];
        return;
      }
      r := AcquireChild();
    }

    method AcquireChild() returns (r: Result<LockCommandResult>)
      requires lock.backend == backend && parentKey.Some?
      modifies backend`sent, lock`currentData
      ensures var leaf, outcomes := Attempt(old(lock.Spec()), 0), Outcomes(|old(backend.sent)|);
              var (trace, reply) := AcquireRun(Checks(), [], leaf, outcomes, 0);
              backend.sent == old(backend.sent) + trace && r == reply
      ensures lock.currentData == if GrantedOrHeld(backend.answers(|old(backend.sent)|))
                                     && GrantedOrHeld(backend.answers(|old(backend.sent)| + 1))
                                  then DataAfter(old(lock.currentData), backend.answers(|old(backend.sent)| + 2))
                                  else old(lock.currentData)
    {
      ghost var leaf, outcomes := Attempt(lock.Spec(), 0), Outcomes(|backend.sent|);
      TakenExactly(backend.answers(|backend.sent|));
      ghost var child, parent := Checks()[0], Checks()[1];
      RunWithTwoChecks(child, parent, leaf, outcomes);
      assert Checks() == [child, parent];
      var childCheck := CheckLock(treeKey, parentKey.value);
      r := childCheck.AcquireWithFlags(LOCK_FLAG_LOCK_TREE_LOCK, None);
      assert r == outcomes(0);
      if r.Err? && !r.error.LockLocked? {
        return;
      }
      r := AcquireParent(childCheck);
    }

    /** The rest of `acquire` on a child, once its child check is taken. */
    method AcquireParent(childCheck: Lock) returns (r: Result<LockCommandResult>)
      requires lock.backend == backend && childCheck.backend == backend && parentKey.Some? && childCheck != lock
      requires childCheck.Spec() == Checks()[0].spec
      modifies backend`sent, lock`currentData, childCheck`currentData
      ensures var (trace, reply) := AfterChild(Checks()[0], Checks()[1], Attempt(old(lock.Spec()), 0),
                                               Outcomes(|old(backend.sent)|), 0);
              backend.sent == old(backend.sent) + trace && r == reply
      ensures lock.currentData == if GrantedOrHeld(backend.answers(|old(backend.sent)|))
                                  then DataAfter(old(lock.currentData), backend.answers(|old(backend.sent)| + 1))
                                  else old(lock.currentData)
    {
      ghost var outcomes := Outcomes(|backend.sent|);
      TakenExactly(backend.answers(|backend.sent|));
      var parentCheck := CheckLock(parentKey.value, treeKey);
      r := parentCheck.AcquireWithFlags(0, None);
      assert r == outcomes(0);
      if r.Err? && !r.error.LockLocked? {
        var ignored := childCheck.ReleaseWithFlags(0, None);
        return;
      }
      r := lock.AcquireWithFlags(0, None);
      assert r == outcomes(1);
      if r.Err? {
        var ignored := childCheck.ReleaseWithFlags(0, None);
        ignored := parentCheck.ReleaseWithFlags(0, None);
      }
    }
  }

  /** What an acquire sends once its child check is taken, case by case. */
  ghost function AfterChild(child: Attempt, parent: Attempt, leaf: Attempt,
                            outcomes: nat -> Result<LockCommandResult>, k: nat)
    : (seq<Request>, Result<LockCommandResult>)
  {
    var undoChild, undoParent := ReleaseRequest(child.spec, 0, None), ReleaseRequest(parent.spec, 0, None);
    var tryParent := AcquireRequest(parent.spec, parent.flag, None);
    var tryLeaf := AcquireRequest(leaf.spec, leaf.flag, None);
    if !Taken(outcomes(k)) then ([tryParent, undoChild], outcomes(k))
    else if outcomes(k + 1).Err? then ([tryParent, tryLeaf, undoChild, undoParent], outcomes(k + 1))
    else ([tryParent, tryLeaf], outcomes(k + 1))
  }

  lemma RunWithOneCheck(child: Attempt, parent: Attempt, leaf: Attempt, outcomes: nat -> Result<LockCommandResult>,
                        k: nat)
    ensures AcquireRun([parent], [child], leaf, outcomes, k) == AfterChild(child, parent, leaf, outcomes, k)
  {
    var undoChild, undoParent := ReleaseRequest(child.spec, 0, None), ReleaseRequest(parent.spec, 0, None);
    var tryParent := AcquireRequest(parent.spec, parent.flag, None);
    var tryLeaf := AcquireRequest(leaf.spec, leaf.flag, None);
    assert [parent][1..] == [] && [child] + [parent] == [child, parent];
    assert Releases([child]) == [undoChild];
    assert Releases([child, parent]) == [undoChild, undoParent];
    if !Taken(outcomes(k)) {
      assert [tryParent] + [undoChild] == [tryParent, undoChild];
    } else {
      var last := AcquireRun([], [child, parent], leaf, outcomes, k + 1);
      assert last.1 == outcomes(k + 1);
      assert last.0 == if outcomes(k + 1).Ok? then [tryLeaf] else [tryLeaf, undoChild, undoParent];
      assert AcquireRun([parent], [child], leaf, outcomes, k) == ([tryParent] + last.0, last.1);
      assert [tryParent] + [tryLeaf] == [tryParent, tryLeaf];
      assert [tryParent] + [tryLeaf, undoChild, undoParent] == [tryParent, tryLeaf, undoChild, undoParent];
    }
  }

  lemma RunWithTwoChecks(child: Attempt, parent: Attempt, leaf: Attempt, outcomes: nat -> Result<LockCommandResult>)
    ensures AcquireRun([child, parent], [], leaf, outcomes, 0)
         == (var tryChild := AcquireRequest(child.spec, child.flag, None);
             if !Taken(outcomes(0)) then ([tryChild], outcomes(0))
             else var (later, reply) := AfterChild(child, parent, leaf, outcomes, 1); ([tryChild] + later, reply))
  {
    var tryChild := AcquireRequest(child.spec, child.flag, None);
    assert Releases([]) == [] && [tryChild] + [] == [tryChild];
    assert [child, parent][1..] == [parent] && [] + [child] == [child];
    RunWithOneCheck(child, parent, leaf, outcomes, 1);
  }

  /** A child's checks, field by field: first its own key under its parent's id with the tree flag, then the parent's
      key under its own id with none. Both wait for nothing, carry the priority flag, expire as the tree does and are
      shared. */
  lemma ChecksOfChild(t: TreeLeafLock)
    requires t.parentKey.Some?
    ensures |t.Checks()| == 2
    ensures t.Checks()[0].spec.lockKey == t.treeKey && t.Checks()[0].spec.lockId == t.parentKey.value
    ensures t.Checks()[1].spec.lockKey == t.parentKey.value && t.Checks()[1].spec.lockId == t.treeKey
    ensures t.Checks()[0].flag == 0x10 && t.Checks()[1].flag == 0
    ensures forall i :: 0 <= i < 2 ==> IsCheck(t, t.Checks()[i].spec)
  {
    CheckTimes(t);
  }

  ghost predicate IsCheck(t: TreeLeafLock, spec: LockSpec) {
    && spec.dbId == t.dbId && spec.count == 0xffff && spec.rCount == 1
    && TimeValue(spec.timeout) == 0 && HasFlag(TimeFlags(spec.timeout), 0x10)
    && TimeValue(spec.expired) == TimeValue(t.treeExpired) && TimeFlags(spec.expired) == t.defaultExpiredFlags
  }

  lemma CheckTimes(t: TreeLeafLock)
    ensures forall key, id :: IsCheck(t, t.CheckSpec(key, id))
  {
    var flags := t.defaultTimeoutFlags;
    UnpackTime(0, flags);
    UnpackTime(0, SetFlag(flags, TIMEOUT_FLAG_RCOUNT_IS_PRIORITY));
    UnpackTime(TimeValue(t.treeExpired), t.defaultExpiredFlags);
    PriorityIsSet(flags);
  }

  lemma PriorityIsSet(flags: u16)
    ensures HasFlag(SetFlag(flags, 0x10), 0x10)
  {
  }
}
