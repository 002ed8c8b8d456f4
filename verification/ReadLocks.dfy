/** The read side of a read-write lock: a stack of granted reads (src/blocking/primitives.rs). */
module ReadLocks {
  import opened Bytes
  import opened Protocol
  import opened Ids
  import opened LockDataTrees
  import opened Locks

  // ---------------------------------------------------------------- histories

  /** A command this lock sent, with what came of it. */
  datatype Sent = Sent(request: Request, outcome: Result<LockCommandResult>)

  predicate Granted(sent: Sent) {
    !IsRelease(sent.request) && sent.outcome.Ok?
  }

  /** Position j of a trace releases what position i acquired: same lock, same key, same id. */
  predicate Releases(trace: seq<Sent>, i: nat, j: nat)
    requires i < |trace| && j < |trace|
  {
    IsRelease(trace[j].request) && trace[j].request == Undo(trace[i].request)
  }

  /** A call on the lock: the parameters it finds and the outcome of the command it sends, if it sends one. */
  datatype Call =
    | AcquireRead(spec: LockSpec, outcome: Result<LockCommandResult>)
    | ReleaseRead(outcome: Result<LockCommandResult>)

  /** What was sent, and the positions of the reads held, latest last. */
  datatype History = History(trace: seq<Sent>, held: seq<nat>)

  predicate Sane(h: History) {
    forall k :: 0 <= k < |h.held| ==> h.held[k] < |h.trace|
  }

  function Next(h: History, call: Call): (next: History)
    requires Sane(h)
    ensures Sane(next)
  {
    match call
    case AcquireRead(spec, outcome) =>
      History(h.trace + [Sent(AcquireRequest(spec, 0, None), outcome)],
              if outcome.Ok? then h.held + [|h.trace|] else h.held)
    case ReleaseRead(outcome) =>
      if h.held == [] then h else
      var top := |h.held| - 1;
      History(h.trace + [Sent(Undo(h.trace[h.held[top]].request), outcome)], h.held[..top])
  }

  function Reply(h: History, call: Call): Result<LockCommandResult> {
    if call.ReleaseRead? && h.held == [] then Err(LockDataError(NoReadLock)) else call.outcome
  }

  const UNUSED := History([], [])

  function Run(calls: seq<Call>): (h: History)
    ensures Sane(h)
  {
    if calls == [] then UNUSED else Next(Run(calls[..|calls| - 1]), calls[|calls| - 1])
  }

  /** Every read is acquired under an id of its own. */
  predicate OwnIds(trace: seq<Sent>) {
    forall i, j :: 0 <= i < j < |trace| && !IsRelease(trace[i].request) && !IsRelease(trace[j].request)
      ==> trace[i].request.spec.lockId != trace[j].request.spec.lockId
  }

  predicate FreshIds(calls: seq<Call>) {
    forall k, l :: 0 <= k < l < |calls| && calls[k].AcquireRead? && calls[l].AcquireRead?
      ==> calls[k].spec.lockId != calls[l].spec.lockId
  }

  ghost predicate Asked(calls: seq<Call>, id: Id16) {
    exists k :: 0 <= k < |calls| && calls[k].AcquireRead? && calls[k].spec.lockId == id
  }

  lemma {:induction false} AcquiresAreAsked(calls: seq<Call>, i: nat)
    requires i < |Run(calls).trace| && !IsRelease(Run(calls).trace[i].request)
    ensures Asked(calls, Run(calls).trace[i].request.spec.lockId)
  {
    var last := |calls| - 1;
    var before := Run(calls[..last]);
    if i < |before.trace| {
      AcquiresAreAsked(calls[..last], i);
      var k :| 0 <= k < last && calls[k].AcquireRead? && calls[k].spec.lockId == before.trace[i].request.spec.lockId;
    } else {
      assert calls[last].AcquireRead?;
    }
  }

  /** Drawing an id that was not drawn before for every read is all it takes. */
  lemma {:induction false} FreshIdsAreOwn(calls: seq<Call>)
    requires FreshIds(calls)
    ensures OwnIds(Run(calls).trace)
  {
    if calls != [] {
      var last := |calls| - 1;
      var before := Run(calls[..last]);
      FreshIdsAreOwn(calls[..last]);
      if calls[last].AcquireRead? {
        forall i: nat | i < |before.trace| && !IsRelease(before.trace[i].request)
          ensures before.trace[i].request.spec.lockId != calls[last].spec.lockId
        {
          AcquiresAreAsked(calls[..last], i);
        }
      }
    }
  }

  // ---------------------------------------------------------------- the matching of releases to reads

  /** `closed` maps every read offered for release to the position of its release. */
  ghost predicate Nested(h: History, closed: map<nat, nat>) {
    && Sane(h)
    && Stacked(h, closed)
    && Matched(h.trace, closed)
    && LastInFirstOut(h.trace, closed)
    && Onto(h.trace, closed)
  }

  /** Granted reads are either closed or held, never both; those held in order. */
  ghost predicate Stacked(h: History, closed: map<nat, nat>)
    requires Sane(h)
  {
    && (forall k, l :: 0 <= k < l < |h.held| ==> h.held[k] < h.held[l])
    && (forall i :: 0 <= i < |h.trace| ==> (i in h.held <==> Granted(h.trace[i]) && i !in closed))
  }

  ghost predicate Matched(trace: seq<Sent>, closed: map<nat, nat>) {
    forall i <- closed :: i < closed[i] < |trace| && Granted(trace[i]) && Releases(trace, i, closed[i])
  }

  ghost predicate LastInFirstOut(trace: seq<Sent>, closed: map<nat, nat>)
  {
    forall i <- closed, m :: i < m < closed[i] && m < |trace| && Granted(trace[m]) ==>
        m in closed && closed[m] < closed[i]
  }

  ghost predicate Onto(trace: seq<Sent>, closed: map<nat, nat>) {
    forall j :: 0 <= j < |trace| && IsRelease(trace[j].request) ==> exists i :: i in closed && closed[i] == j
  }

  ghost function NextClosed(h: History, closed: map<nat, nat>, call: Call): map<nat, nat>
  {
    if call.ReleaseRead? && h.held != [] then closed[h.held[|h.held| - 1] := |h.trace|] else closed
  }

  lemma AcquireKeepsNested(h: History, closed: map<nat, nat>, call: Call)
    requires Nested(h, closed) && call.AcquireRead?
    ensures Nested(Next(h, call), closed)
  {
    PushKeepsStacked(h, closed, call);
    var sent := Sent(AcquireRequest(call.spec, 0, None), call.outcome);
    PushKeepsMatched(h.trace, closed, sent);
    PushIsNotOut(h.trace, closed, sent);
    PushKeepsOnto(h.trace, closed, sent);
  }

  lemma PushKeepsStacked(h: History, closed: map<nat, nat>, call: Call)
    requires Sane(h) && Stacked(h, closed) && Matched(h.trace, closed) && call.AcquireRead?
    ensures Stacked(Next(h, call), closed)
  {
    var next, end := Next(h, call), |h.trace|;
    assert end !in closed && end !in h.held;
    assert forall i :: i in next.held <==> i in h.held || (call.outcome.Ok? && i == end);
    assert forall i :: 0 <= i < end ==> next.trace[i] == h.trace[i];
  }

  lemma PushKeepsMatched(trace: seq<Sent>, closed: map<nat, nat>, sent: Sent)
    requires Matched(trace, closed)
    ensures Matched(trace + [sent], closed)
  {
    var next := trace + [sent];
    assert forall i :: 0 <= i < |trace| ==> next[i] == trace[i];
    forall i <- closed ensures i < closed[i] < |trace| && Granted(next[i]) && Releases(next, i, closed[i]) {
      assert Releases(trace, i, closed[i]);
    }
  }

  lemma PushIsNotOut(trace: seq<Sent>, closed: map<nat, nat>, sent: Sent)
    requires Matched(trace, closed) && LastInFirstOut(trace, closed)
    ensures LastInFirstOut(trace + [sent], closed)
  {
    var next := trace + [sent];
    forall i <- closed, m | i < m < closed[i] && m < |next| && Granted(next[m])
      ensures m in closed && closed[m] < closed[i]
    {
      assert next[m] == trace[m];
    }
  }

  lemma PushKeepsOnto(trace: seq<Sent>, closed: map<nat, nat>, sent: Sent)
    requires Onto(trace, closed) && !IsRelease(sent.request)
    ensures Onto(trace + [sent], closed)
  {
    var next := trace + [sent];
    forall j | 0 <= j < |next| && IsRelease(next[j].request) ensures exists i :: i in closed && closed[i] == j {
      assert next[j] == trace[j];
    }
  }

  lemma ReleaseKeepsNested(h: History, closed: map<nat, nat>, call: Call)
    requires Nested(h, closed) && call.ReleaseRead? && h.held != []
    ensures Nested(Next(h, call), NextClosed(h, closed, call))
  {
    PopKeepsStacked(h, closed, call);
    PopKeepsMatched(h, closed, call);
    PopIsLastIn(h, closed, call);
    PopKeepsOnto(h, closed, call);
  }

  lemma PopKeepsStacked(h: History, closed: map<nat, nat>, call: Call)
    requires Sane(h) && Stacked(h, closed) && call.ReleaseRead? && h.held != []
    ensures Stacked(Next(h, call), NextClosed(h, closed, call))
  {
    var next, top := Next(h, call), |h.held| - 1;
    assert forall i :: 0 <= i < |h.trace| ==> next.trace[i] == h.trace[i];
    assert h.held == next.held + [h.held[top]];
    assert forall i :: i in h.held <==> i in next.held || i == h.held[top];
    assert !Granted(next.trace[|h.trace|]);
  }

  lemma PopKeepsMatched(h: History, closed: map<nat, nat>, call: Call)
    requires Sane(h) && Stacked(h, closed) && Matched(h.trace, closed) && call.ReleaseRead? && h.held != []
    ensures Matched(Next(h, call).trace, NextClosed(h, closed, call))
  {
    var next, end, top := Next(h, call), |h.trace|, h.held[|h.held| - 1];
    assert top in h.held;
    assert next.trace[top] == h.trace[top];
    forall i <- closed
      ensures i < closed[i] < end && Granted(next.trace[i]) && Releases(next.trace, i, closed[i])
    {
      assert Releases(h.trace, i, closed[i]);
      assert next.trace[i] == h.trace[i] && next.trace[closed[i]] == h.trace[closed[i]];
    }
  }

  lemma PopIsLastIn(h: History, closed: map<nat, nat>, call: Call)
    requires Sane(h) && Stacked(h, closed) && Matched(h.trace, closed) && LastInFirstOut(h.trace, closed)
    requires call.ReleaseRead? && h.held != []
    ensures LastInFirstOut(Next(h, call).trace, NextClosed(h, closed, call))
  {
    var next, closed', top := Next(h, call), NextClosed(h, closed, call), h.held[|h.held| - 1];
    forall i <- closed', m | i < m < closed'[i] && m < |next.trace| && Granted(next.trace[m])
      ensures m in closed' && closed'[m] < closed'[i]
    {
      assert top in h.held;
      assert next.trace[m] == h.trace[m];
      assert i == top ==> m !in h.held;
    }
  }

  lemma PopKeepsOnto(h: History, closed: map<nat, nat>, call: Call)
    requires Sane(h) && Stacked(h, closed) && Onto(h.trace, closed) && call.ReleaseRead? && h.held != []
    ensures Onto(Next(h, call).trace, NextClosed(h, closed, call))
  {
    var next, closed', top := Next(h, call), NextClosed(h, closed, call), h.held[|h.held| - 1];
    assert top in h.held;
    forall j | 0 <= j < |next.trace| && IsRelease(next.trace[j].request)
      ensures exists i :: i in closed' && closed'[i] == j
    {
      if j == |h.trace| {
        assert closed'[top] == j;
      } else {
        assert next.trace[j] == h.trace[j];
        var i :| i in closed && closed[i] == j;
        assert i in closed' && closed'[i] == j;
      }
    }
  }

  ghost function Closed(calls: seq<Call>): map<nat, nat> {
    if calls == [] then map[] else
    var before := calls[..|calls| - 1];
    NextClosed(Run(before), Closed(before), calls[|calls| - 1])
  }

  lemma {:induction false} RunIsNested(calls: seq<Call>)
    ensures Nested(Run(calls), Closed(calls))
  {
    if calls != [] {
      var before, call := calls[..|calls| - 1], calls[|calls| - 1];
      RunIsNested(before);
      if call.AcquireRead? {
        AcquireKeepsNested(Run(before), Closed(before), call);
      } else if Run(before).held != [] {
        ReleaseKeepsNested(Run(before), Closed(before), call);
      }
    }
  }

  // ---------------------------------------------------------------- what every run shows

  ghost predicate ReleasedIn(trace: seq<Sent>, i: nat, from: nat, to: nat)
    requires i < |trace| && to <= |trace|
  {
    exists j :: from <= j < to && Releases(trace, i, j)
  }

  lemma SameIdSameRead(trace: seq<Sent>, i: nat, k: nat)
    requires OwnIds(trace) && i < |trace| && k < |trace| && Granted(trace[i]) && Granted(trace[k])
    requires trace[i].request.spec.lockId == trace[k].request.spec.lockId
    ensures i == k
  {
  }

  /** With ids of their own, a release can only be matched to one read. */
  lemma OneReadPerRelease(calls: seq<Call>, i: nat, j: nat)
    requires OwnIds(Run(calls).trace)
    requires i < |Run(calls).trace| && j < |Run(calls).trace| && Releases(Run(calls).trace, i, j)
    requires Granted(Run(calls).trace[i])
    ensures i in Closed(calls) && Closed(calls)[i] == j
  {
    RunIsNested(calls);
    var trace, closed := Run(calls).trace, Closed(calls);
    var k :| k in closed && closed[k] == j;
    assert Releases(trace, k, j);
    SameIdSameRead(trace, i, k);
  }

  /** Each release undoes the latest read that was granted and not yet released: it names that read's key and id, that
      read was not released before, and every read granted in between already was, also in between. */
  lemma ReleasesLatestRead(calls: seq<Call>, j: nat)
    requires OwnIds(Run(calls).trace)
    requires j < |Run(calls).trace| && IsRelease(Run(calls).trace[j].request)
    ensures var trace := Run(calls).trace;
            exists i: nat :: i < j && Granted(trace[i]) && Releases(trace, i, j) && !ReleasedIn(trace, i, 0, j)
                          && (forall m: nat :: i < m < j && Granted(trace[m]) ==> ReleasedIn(trace, m, m + 1, j))
  {
    RunIsNested(calls);
    var trace, closed := Run(calls).trace, Closed(calls);
    var i :| i in closed && closed[i] == j;
    if ReleasedIn(trace, i, 0, j) {
      var j' :| 0 <= j' < j && Releases(trace, i, j');
      OneReadPerRelease(calls, i, j');
      assert false;
    }
    forall m: nat | i < m < j && Granted(trace[m]) ensures ReleasedIn(trace, m, m + 1, j) {
      assert Releases(trace, m, closed[m]);
    }
  }

  /** No id is ever unlocked twice. */
  lemma NoReadIsReleasedTwice(calls: seq<Call>, j: nat, k: nat)
    requires OwnIds(Run(calls).trace)
    requires j < k < |Run(calls).trace|
    requires IsRelease(Run(calls).trace[j].request) && IsRelease(Run(calls).trace[k].request)
    ensures Run(calls).trace[j].request.spec.lockId != Run(calls).trace[k].request.spec.lockId
  {
    RunIsNested(calls);
    var closed := Closed(calls);
    var i :| i in closed && closed[i] == j;
    var m :| m in closed && closed[m] == k;
    assert Releases(Run(calls).trace, i, j) && Releases(Run(calls).trace, m, k);
    if Run(calls).trace[j].request.spec.lockId == Run(calls).trace[k].request.spec.lockId {
      SameIdSameRead(Run(calls).trace, i, m);
      assert false;
    }
  }

  /** The stack holds exactly the reads granted and not yet offered for release, earliest first. */
  lemma HeldReadsExactly(calls: seq<Call>, i: nat)
    requires OwnIds(Run(calls).trace)
    requires i < |Run(calls).trace|
    ensures i in Run(calls).held
        <==> Granted(Run(calls).trace[i]) && !ReleasedIn(Run(calls).trace, i, 0, |Run(calls).trace|)
    ensures forall k, l :: 0 <= k < l < |Run(calls).held| ==> Run(calls).held[k] < Run(calls).held[l]
  {
    RunIsNested(calls);
    var h, closed := Run(calls), Closed(calls);
    if Granted(h.trace[i]) {
      if ReleasedIn(h.trace, i, 0, |h.trace|) {
        var j :| 0 <= j < |h.trace| && Releases(h.trace, i, j);
        OneReadPerRelease(calls, i, j);
      }
      assert i in closed ==> Releases(h.trace, i, closed[i]);
    }
  }

  /** A release is refused, and then sends nothing, exactly when every granted read has been offered for release. */
  lemma RefusedExactlyWhenAllReleased(calls: seq<Call>, outcome: Result<LockCommandResult>)
    requires OwnIds(Run(calls).trace)
    ensures var h, call := Run(calls), ReleaseRead(outcome);
            Next(h, call).trace == h.trace
            <==> (forall i: nat :: i < |h.trace| && Granted(h.trace[i]) ==> ReleasedIn(h.trace, i, 0, |h.trace|))
    ensures Next(Run(calls), ReleaseRead(outcome)).trace == Run(calls).trace
        ==> Reply(Run(calls), ReleaseRead(outcome)) == Err(LockDataError(NoReadLock))
  {
    var h := Run(calls);
    assert h.held != [] ==> |Next(h, ReleaseRead(outcome)).trace| == |h.trace| + 1;
    if h.held == [] {
      forall i: nat | i < |h.trace| && Granted(h.trace[i]) ensures ReleasedIn(h.trace, i, 0, |h.trace|) {
        HeldReadsExactly(calls, i);
      }
    } else {
      HeldReadsExactly(calls, h.held[0]);
    }
  }

  // ---------------------------------------------------------------- the lock itself

  class ReadWriteLock {
    const backend: Backend
    const dbId: u8
    const defaultTimeoutFlags: u16
    const defaultExpiredFlags: u16
    const key: seq<u8>
    const timeout: u16
    const expired: u16
    const md5: seq<u8> -> Key16
    var readLocks: seq<Lock>
    ghost var history: History

    ghost predicate Valid()
      reads this, readLocks
    {
      && Sane(history)
      && |readLocks| == |history.held|
      && (forall k, l :: 0 <= k < l < |readLocks| ==> readLocks[k] != readLocks[l])
      && (forall k :: 0 <= k < |readLocks| ==>
            readLocks[k].backend == backend && readLocks[k].Spec() == history.trace[history.held[k]].request.spec)
    }

    function ReadSpec(id: Id16): LockSpec {
      LockSpec(dbId, NormalizeKey(key, md5), id, WithFlags(timeout, defaultTimeoutFlags),
               WithFlags(expired, defaultExpiredFlags), U16_MAX, 0)
    }

    constructor (backend: Backend, dbId: u8, timeoutFlags: u16, expiredFlags: u16, key: seq<u8>, timeout: u16,
                 expired: u16, md5: seq<u8> -> Key16)
      ensures Valid() && history == UNUSED && this.backend == backend && this.dbId == dbId && this.key == key
      ensures defaultTimeoutFlags == timeoutFlags && defaultExpiredFlags == expiredFlags
      ensures this.timeout == timeout && this.expired == expired && this.md5 == md5
    {
      this.backend, this.dbId, this.key, this.md5 := backend, dbId, key, md5;
      defaultTimeoutFlags, defaultExpiredFlags := timeoutFlags, expiredFlags;
      this.timeout, this.expired := timeout, expired;
      readLocks := [];
      history := UNUSED;
    }

    method AcquireRead() returns (r: Result<LockCommandResult>)
      requires Valid()
      modifies this, backend
      ensures Valid()
      ensures var call := Call.AcquireRead(ReadSpec(backend.ids(old(backend.drawn))),
                                           OutcomeOf(backend.answers(|old(backend.sent)|)));
              && history == Next(old(history), call)
              && r == Reply(old(history), call)
      ensures history.trace == old(history.trace) + [history.trace[|old(history.trace)|]]
      ensures backend.sent == old(backend.sent) + [history.trace[|old(history.trace)|].request]
      ensures backend.drawn == old(backend.drawn) + 1
    {
      var id := backend.NewId();
      var lock := new Lock(backend, dbId, NormalizeKey(key, md5), id, WithFlags(timeout, defaultTimeoutFlags),
                           WithFlags(expired, defaultExpiredFlags), 0, 0);
      lock.count := U16_MAX;
      ghost var spec := lock.Spec();
      r := lock.AcquireWithFlags(0, None);
      history := Next(history, Call.AcquireRead(spec, r));
      if r.Ok? {
        readLocks := readLocks + [lock];
      }
    }

    method ReleaseRead() returns (r: Result<LockCommandResult>)
      requires Valid()
      modifies this, backend`sent, readLocks
      ensures Valid()
      ensures var call := Call.ReleaseRead(OutcomeOf(backend.answers(|old(backend.sent)|)));
              && history == Next(old(history), call)
              && r == Reply(old(history), call)
      ensures if old(readLocks) == [] then backend.sent == old(backend.sent) else
              backend.sent == old(backend.sent) + [history.trace[|old(history.trace)|].request]
    {
      if readLocks == [] {
        return Err(LockDataError(NoReadLock));
      }
      var top := |readLocks| - 1;
      var lock := readLocks[top];
      readLocks := readLocks[..top];
      r := lock.ReleaseWithFlags(0, None);
      history := Next(history, Call.ReleaseRead(r));
    }
  }

  /** A read lock, field by field: the lock's own key and times under an id of its own, open to any number. */
  lemma ReadLockFields(l: ReadWriteLock, id: Id16)
    ensures var spec := l.ReadSpec(id);
            && spec.dbId == l.dbId && spec.lockKey == NormalizeKey(l.key, l.md5) && spec.lockId == id
            && TimeValue(spec.timeout) == l.timeout && TimeFlags(spec.timeout) == l.defaultTimeoutFlags
            && TimeValue(spec.expired) == l.expired && TimeFlags(spec.expired) == l.defaultExpiredFlags
            && spec.count == 0xffff && spec.rCount == 0
  {
    UnpackTime(l.timeout, l.defaultTimeoutFlags);
    UnpackTime(l.expired, l.defaultExpiredFlags);
  }
}
