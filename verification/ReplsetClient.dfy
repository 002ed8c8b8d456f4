/** The replica-set client object: the active index, the queue of pending commands and the methods that update them
    (src/blocking/replset.rs). */
module ReplsetClient {
  import opened Bytes
  import opened Bits
  import opened Protocol
  import opened Commands
  import opened Replset

  // ---------------------------------------------------------------- the queue

  /** `iter_mut().find(..)` and a store: the first entry with the id changes. */
  function UpdateFirst(q: seq<PendingCommand>, id: Id16, retry: RetryType): (r: seq<PendingCommand>)
    ensures |r| == |q|
  {
    if q == [] then []
    else if q[0].requestId == id then [q[0].(retryType := retry)] + q[1..]
    else [q[0]] + UpdateFirst(q[1..], id, retry)
  }

  /** The first entry with the id gets the new state; everything else is as it was. */
  lemma {:induction false} UpdatesTheFirst(q: seq<PendingCommand>, id: Id16, retry: RetryType, j: nat)
    requires j < |q|
    ensures UpdateFirst(q, id, retry)[j]
         == if q[j].requestId == id && (forall i :: 0 <= i < j ==> q[i].requestId != id)
            then q[j].(retryType := retry) else q[j]
  {
    if j > 0 {
      if q[0].requestId != id {
        UpdatesTheFirst(q[1..], id, retry, j - 1);
        assert forall i :: 0 <= i < j - 1 ==> q[1..][i] == q[i + 1];
        assert (forall i :: 0 <= i < j ==> q[i].requestId != id)
            <==> (forall i :: 0 <= i < j - 1 ==> q[1..][i].requestId != id) by {
          assert forall i :: 1 <= i < j ==> q[i] == q[1..][i - 1];
        }
      }
    }
  }

  /** `retain`: every entry with the id goes. */
  function Without(q: seq<PendingCommand>, id: Id16): seq<PendingCommand> {
    if q == [] then []
    else if q[0].requestId == id then Without(q[1..], id)
    else [q[0]] + Without(q[1..], id)
  }

  lemma {:induction false} UpdateTwice(q: seq<PendingCommand>, id: Id16, a: RetryType, b: RetryType)
    ensures UpdateFirst(UpdateFirst(q, id, a), id, b) == UpdateFirst(q, id, b)
  {
    if q != [] {
      UpdateTwice(q[1..], id, a, b);
    }
  }

  lemma {:induction false} WithoutIgnoresUpdate(q: seq<PendingCommand>, id: Id16, retry: RetryType)
    ensures Without(UpdateFirst(q, id, retry), id) == Without(q, id)
  {
    if q != [] {
      WithoutIgnoresUpdate(q[1..], id, retry);
    }
  }

  lemma {:induction false} WithoutAppend(q: seq<PendingCommand>, e: PendingCommand, id: Id16)
    ensures Without(q + [e], id) == Without(q, id) + if e.requestId == id then [] else [e]
  {
    if q != [] {
      WithoutAppend(q[1..], e, id);
      assert (q + [e])[1..] == q[1..] + [e];
    }
  }

  lemma {:induction false} WithoutAbsent(q: seq<PendingCommand>, id: Id16)
    requires forall e :: e in q ==> e.requestId != id
    ensures Without(q, id) == q
  {
    if q != [] {
      WithoutAbsent(q[1..], id);
      assert [q[0]] + q[1..] == q;
    }
  }

  lemma {:induction false} UpdateSkips(q: seq<PendingCommand>, i: nat, id: Id16, retry: RetryType)
    requires i <= |q| && forall j :: 0 <= j < i ==> q[j].requestId != id
    ensures UpdateFirst(q, id, retry) == q[..i] + UpdateFirst(q[i..], id, retry)
  {
    if i > 0 {
      UpdateSkips(q[1..], i - 1, id, retry);
      assert q[1..][i - 1..] == q[i..];
      assert q[..i] == [q[0]] + q[1..][..i - 1];
    }
  }

  // ---------------------------------------------------------------- choosing a node to start with

  predicate Leader(opens: Result<u8>) {
    opens.Ok? && HasFlag(opens.value, INIT_TYPE_FLAG_IS_LEADER)
  }

  /** The leader bit of an init type. */
  lemma LeaderIsBit(x: bv8)
    ensures Leader(Ok(x as int)) <==> x & 0x04 != 0
  {
    KvAndLeaderFlagIsBit(x);
  }

  /** The loop of `open`: node i answers with its init type or an error. */
  method ChooseNode(n: nat, opens: nat -> Result<u8>) returns (pick: Option<nat>, lastError: Option<SlockError>)
    ensures pick.None? <==> forall i :: 0 <= i < n ==> opens(i).Err?
    ensures pick.Some? ==> pick.value < n && opens(pick.value).Ok?
    ensures pick.Some? && Leader(opens(pick.value)) ==> forall i :: pick.value < i < n ==> !Leader(opens(i))
    ensures pick.Some? && !Leader(opens(pick.value)) ==>
              (forall i :: 0 <= i < n ==> !Leader(opens(i))) && (forall i :: 0 <= i < pick.value ==> opens(i).Err?)
    ensures pick.None? && n > 0 ==> lastError == Some(opens(n - 1).error)
  {
    lastError := None;
    var firstLive: Option<nat> := None;
    var leader: Option<nat> := None;
    for index := 0 to n
      invariant firstLive.None? ==> forall i :: 0 <= i < index ==> opens(i).Err?
      invariant firstLive.Some? ==> firstLive.value < index && opens(firstLive.value).Ok?
      invariant firstLive.Some? ==> forall i :: 0 <= i < firstLive.value ==> opens(i).Err?
      invariant leader.None? ==> forall i :: 0 <= i < index ==> !Leader(opens(i))
      invariant leader.Some? ==> leader.value < index && Leader(opens(leader.value))
      invariant leader.Some? ==> forall i :: leader.value < i < index ==> !Leader(opens(i))
      invariant firstLive.None? && index > 0 ==> lastError == Some(opens(index - 1).error)
    {
      match opens(index) {
        case Ok(initType) =>
          if firstLive.None? {
            firstLive := Some(index);
          }
          if HasFlag(initType, INIT_TYPE_FLAG_IS_LEADER) {
            leader := Some(index);
          }
        case Err(e) =>
          lastError := Some(e);
      }
    }
    pick := if leader.Some? then leader else firstLive;
  }

  // ---------------------------------------------------------------- the client

  /** A call may go on for the value of its command's timeout, in seconds, and the grace: only lock commands have one,
      in the low half of the packed timeout. */
  ghost function Deadline(command: Command, now: int, grace: nat): int {
    now + (if command.Lock? then command.lock.timeout % 0x1_0000 else 0) * 1_000_000_000 + grace
  }

  class ReplsetClient {
    const n: nat
    var activeIndex: Option<nat>
    var pending: seq<PendingCommand>

    ghost predicate Valid()
      reads this
    {
      IndexOk(activeIndex, n)
    }

    constructor (nodes: nat)
      ensures Valid() && n == nodes && activeIndex == None && pending == []
    {
      n := nodes;
      activeIndex := None;
      pending := [];
    }

    method Open(opens: nat -> Result<u8>) returns (r: Result<()>)
      requires Valid()
      modifies this`activeIndex
      ensures Valid()
      ensures r.Ok? <==> exists i :: 0 <= i < n && opens(i).Ok?
      ensures r.Err? ==> activeIndex == old(activeIndex)
      ensures r.Err? ==> r.error == if n == 0 then NotConnected else opens(n - 1).error
      ensures r.Ok? ==> activeIndex.Some? && opens(activeIndex.value).Ok?
      ensures r.Ok? && (exists i :: 0 <= i < n && Leader(opens(i))) ==>
                Leader(opens(activeIndex.value)) && forall i :: activeIndex.value < i < n ==> !Leader(opens(i))
      ensures r.Ok? && (forall i :: 0 <= i < n ==> !Leader(opens(i))) ==>
                forall i :: 0 <= i < activeIndex.value ==> opens(i).Err?
    {
      if n == 0 {
        return Err(NotConnected);
      }
      var pick, lastError := ChooseNode(n, opens);
      if pick.Some? {
        activeIndex := pick;
        r := Ok(());
      } else {
        r := Err(if lastError.Some? then lastError.value else NotConnected);
      }
    }

    method Close()
      modifies this`activeIndex
      ensures Valid() && activeIndex == None
    {
      activeIndex := None;
    }

    /** `client`: the index looked up always exists, so the empty stand-in is never made. */
    method ClientIndex() returns (index: nat)
      requires Valid() && n > 0
      ensures index < n && (activeIndex.Some? ==> index == activeIndex.value)
    {
      index := if activeIndex.Some? then activeIndex.value else 0;
    }

    method PushPendingCommand(e: PendingCommand)
      modifies this`pending
      ensures pending == old(pending) + [e]
    {
      pending := pending + [e];
    }

    method UpdatePendingRetryType(id: Id16, retry: RetryType)
      modifies this`pending
      ensures pending == UpdateFirst(old(pending), id, retry)
    {
      var i := 0;
      while i < |pending| && pending[i].requestId != id
        invariant 0 <= i <= |pending|
        invariant pending == old(pending)
        invariant forall j :: 0 <= j < i ==> pending[j].requestId != id
      {
        i := i + 1;
      }
      UpdateSkips(pending, i, id, retry);
      if i < |pending| {
        pending := pending[i := pending[i].(retryType := retry)];
      }
    }

    method RemovePendingCommand(id: Id16)
      modifies this`pending
      ensures pending == Without(old(pending), id)
    {
      var kept: seq<PendingCommand> := [];
      var i := 0;
      while i < |pending|
        invariant 0 <= i <= |pending|
        invariant pending == old(pending)
        invariant kept == Without(pending[..i], id)
      {
        assert pending[..i + 1] == pending[..i] + [pending[i]];
        WithoutAppend(pending[..i], pending[i], id);
        if pending[i].requestId != id {
          kept := kept + [pending[i]];
        }
        i := i + 1;
      }
      assert pending[..i] == pending;
      pending := kept;
    }

    /** The queue entry follows the local copy of the retry state. */
    ghost predicate Follows(before: seq<PendingCommand>, id: Id16, was: RetryType, retry: RetryType)
      reads this
    {
      pending == UpdateFirst(before, id, retry) || (pending == before && retry == was)
    }

    /** The inner loop of `send_pending_command`: one turn round the ring from the active node. */
    method RunPass(answers: nat -> NodeAnswer, id: Id16, lastError: Option<SlockError>, retry: RetryType)
      returns (end: PassEnd, scan: Scan)
      requires Valid() && n > 0
      modifies this
      ensures Valid()
      ensures (end, scan) == ScanFrom(answers, n, StartOf(old(activeIndex)), 0, Scan(lastError, None, retry))
      ensures activeIndex == if end.Accepted? then Some(end.index) else old(activeIndex)
      ensures Follows(old(pending), id, retry, scan.retry)
    {
      var start := StartOf(activeIndex);
      scan := Scan(lastError, None, retry);
      var offset := 0;
      while offset < n
        invariant 0 <= offset <= n && activeIndex == old(activeIndex)
        invariant ScanFrom(answers, n, start, 0, Scan(lastError, None, retry))
             == ScanFrom(answers, n, start, offset, scan)
        invariant Follows(old(pending), id, retry, scan.retry)
      {
        var index := Ring(start, offset, n);
        match Judge(answers(index), n) {
          case Unreachable(e) =>
            scan := scan.(lastError := Some(e));
          case WrongNode(r) =>
            UpdateTwice(old(pending), id, scan.retry, Redirected);
            UpdatePendingRetryType(id, Redirected);
            scan := scan.(retry := Redirected, lastState := Some(r));
          case Lost(e) =>
            UpdateTwice(old(pending), id, scan.retry, Redirected);
            UpdatePendingRetryType(id, Redirected);
            scan := scan.(retry := Redirected, lastError := Some(e));
          case Accept(r) =>
            activeIndex := Some(index);
            end := Accepted(index, r);
            return;
          case Reject(e) =>
            end := Rejected(index, e);
            return;
        }
        offset := offset + 1;
      }
      end := Through;
    }

    /** `send_pending_command`, other callers moving the active index between passes. */
    method SendPendingCommand(env: Env, id: Id16, deadline: int) returns (reply: Result<CommandResult>)
      requires Valid() && n > 0 && OthersOk(env, n) && ClockOk(env, deadline)
      modifies this
      ensures Valid()
      ensures var end := CallFrom(env, n, deadline, 0, old(activeIndex), None, Origin);
              && reply == end.reply && activeIndex == end.active
              && Follows(old(pending), id, Origin, end.retry)
    {
      ghost var goal := CallFrom(env, n, deadline, 0, activeIndex, None, Origin);
      var lastError: Option<SlockError> := None;
      var retry := Origin;
      var k := 0;
      while true
        invariant Valid()
        invariant goal == CallFrom(env, n, deadline, k, activeIndex, lastError, retry)
        invariant Follows(old(pending), id, Origin, retry)
        decreases if env.check(k) < deadline then deadline - env.check(k) else 0
      {
        activeIndex := ActiveAt(env, k, activeIndex);
        ghost var before, was := pending, retry;
        var end, scan := RunPass(env.answers(k), id, lastError, retry);
        UpdateTwice(old(pending), id, was, scan.retry);
        match end {
          case Accepted(_, r) => return Ok(r);
          case Rejected(_, e) => return Err(e);
          case Through =>
        }
        if scan.lastState.Some? {
          return Ok(scan.lastState.value);
        }
        if env.check(k) >= deadline {
          return Err(if scan.lastError.Some? then scan.lastError.value else NotConnected);
        }
        UpdateTwice(old(pending), id, scan.retry, RetryType.Pending);
        UpdatePendingRetryType(id, RetryType.Pending);
        assert env.nap(k) + SleepTime(deadline, env.nap(k)) <= env.check(k + 1);
        UpdateTwice(old(pending), id, RetryType.Pending, Woken);
        UpdatePendingRetryType(id, Woken);
        lastError, retry, k := scan.lastError, Woken, k + 1;
      }
    }

    /** `send_command`: the deadline is fixed before the command enters the queue and never moves. */
    method SendCommand(command: Command, env: Env, now: int, grace: nat) returns (reply: Result<CommandResult>)
      requires Valid() && OthersOk(env, n)
      requires ClockOk(env, Deadline(command, now, grace))
      modifies this
      ensures Valid()
      ensures n == 0 ==> reply == Err(NotConnected) && activeIndex == old(activeIndex) && pending == old(pending)
      ensures n > 0 && EncodeCommand(command).Err? ==>
                reply == Err(EncodeCommand(command).error) && activeIndex == old(activeIndex) && pending == old(pending)
      ensures n > 0 && EncodeCommand(command).Ok? ==>
                var end := CallFrom(env, n, Deadline(command, now, grace), 0, old(activeIndex), None, Origin);
                && reply == end.reply && activeIndex == end.active
                && pending == Without(old(pending), command.RequestId())
      ensures (forall e :: e in old(pending) ==> e.requestId != command.RequestId()) ==> pending == old(pending)
    {
      WithoutAbsentIf(pending, command.RequestId());
      if n == 0 {
        return Err(NotConnected);
      }
      var encoded := EncodeRequest(command);
      if encoded.Err? {
        return Err(encoded.error);
      }
      var deadline := now + encoded.value.timeout * 1_000_000_000 + grace;
      reply := Enqueued(env, command.RequestId(), deadline);
    }

    method Enqueued(env: Env, id: Id16, deadline: int) returns (reply: Result<CommandResult>)
      requires Valid() && n > 0 && OthersOk(env, n) && ClockOk(env, deadline)
      modifies this
      ensures Valid()
      ensures var end := CallFrom(env, n, deadline, 0, old(activeIndex), None, Origin);
              reply == end.reply && activeIndex == end.active
      ensures pending == Without(old(pending), id)
    {
      PushPendingCommand(PendingCommand(id, Origin, deadline));
      ghost var queued := pending;
      reply := SendPendingCommand(env, id, deadline);
      ghost var retry := CallFrom(env, n, deadline, 0, old(activeIndex), None, Origin).retry;
      WithoutIgnoresUpdate(queued, id, retry);
      WithoutAppend(old(pending), PendingCommand(id, Origin, deadline), id);
      RemovePendingCommand(id);
    }
  }

  lemma WithoutAbsentIf(q: seq<PendingCommand>, id: Id16)
    ensures (forall e :: e in q ==> e.requestId != id) ==> Without(q, id) == q
  {
    if forall e :: e in q ==> e.requestId != id {
      WithoutAbsent(q, id);
    }
  }
}
