/** The replica-set client: choosing a node, scanning the ring, retrying until a deadline
    (src/blocking/replset.rs). Nodes and the clock may answer anything; their answers are parameters. */
module Replset {
  import opened Bytes
  import opened Protocol
  import opened Commands

  datatype RetryType = Origin | Redirected | Pending | Woken

  datatype PendingCommand = PendingCommand(requestId: Id16, retryType: RetryType, deadline: int)

  /** What one attempt at a node gives: opening it fails, or the command is sent and comes back. */
  datatype NodeAnswer = OpenFailed(error: SlockError) | Sent(reply: Result<CommandResult>)

  predicate LockStateError(r: CommandResult) {
    r.LockResult? && r.lock.result == COMMAND_RESULT_STATE_ERROR
  }

  predicate RetryableTransportError(e: SlockError) {
    e.Io? || e.NotConnected? || e.ClientClosed?
  }

  /** What the scan does with an attempt in a set of n nodes. */
  datatype Verdict =
    | Unreachable(error: SlockError)    // try the next node
    | WrongNode(result: CommandResult)  // STATE_ERROR: remember it, try the next node
    | Lost(error: SlockError)           // retryable transport error: try the next node
    | Accept(result: CommandResult)
    | Reject(error: SlockError)
  {
    predicate Decisive() {
      Accept? || Reject?
    }
  }

  function Judge(a: NodeAnswer, n: nat): Verdict {
    match a
    case OpenFailed(e) => Unreachable(e)
    case Sent(Ok(r)) => if LockStateError(r) && n > 1 then WrongNode(r) else Accept(r)
    case Sent(Err(e)) => if RetryableTransportError(e) && n > 1 then Lost(e) else Reject(e)
  }

  // ---------------------------------------------------------------- one pass over the ring

  function Ring(start: nat, offset: nat, n: nat): (index: nat)
    requires n > 0
    ensures index < n
  {
    (start + offset) % n
  }

  datatype Scan = Scan(lastError: Option<SlockError>, lastState: Option<CommandResult>, retry: RetryType)

  datatype PassEnd = Accepted(index: nat, result: CommandResult) | Rejected(index: nat, error: SlockError) | Through

  /** The loop variables after an attempt that did not decide the pass. */
  function Absorb(scan: Scan, v: Verdict): Scan {
    match v
    case Unreachable(e) => scan.(lastError := Some(e))
    case WrongNode(r) => scan.(lastState := Some(r), retry := Redirected)
    case Lost(e) => scan.(lastError := Some(e), retry := Redirected)
    case _ => scan
  }

  /** The pass from an offset on: how it ends, and the loop variables at that point. */
  function ScanFrom(answers: nat -> NodeAnswer, n: nat, start: nat, offset: nat, scan: Scan): (PassEnd, Scan)
    requires offset <= n
    decreases n - offset
  {
    if offset == n then (Through, scan) else
    var index := Ring(start, offset, n);
    match Judge(answers(index), n)
    case Accept(r) => (Accepted(index, r), scan)
    case Reject(e) => (Rejected(index, e), scan)
    case v => ScanFrom(answers, n, start, offset + 1, Absorb(scan, v))
  }

  ghost function AnswerAt(answers: nat -> NodeAnswer, n: nat, start: nat, offset: nat): NodeAnswer
    requires n > 0
  {
    answers(Ring(start, offset, n))
  }

  ghost function VerdictAt(answers: nat -> NodeAnswer, n: nat, start: nat, offset: nat): Verdict
    requires n > 0
  {
    Judge(AnswerAt(answers, n, start, offset), n)
  }

  // What an answer means, read off the answer itself.

  /** The pass goes on to the next node: the node did not open, or there are several nodes and it answered with result
      code ten or failed in a way that another node may not. */
  ghost predicate GoesOn(a: NodeAnswer, n: nat) {
    match a
    case OpenFailed(_) => true
    case Sent(Ok(LockResult(k))) => n > 1 && k.result == 0x0a
    case Sent(Ok(_)) => false
    case Sent(Err(e)) => n > 1 && (e == Io || e == NotConnected || e == ClientClosed)
  }

  ghost function ErrorOf(a: NodeAnswer): Option<SlockError> {
    match a
    case OpenFailed(e) => Some(e)
    case Sent(Ok(_)) => None
    case Sent(Err(e)) => Some(e)
  }

  ghost function StateOf(a: NodeAnswer): Option<CommandResult> {
    match a
    case Sent(Ok(LockResult(k))) => if k.result == 0x0a then Some(LockResult(k)) else None
    case _ => None
  }

  /** An answer that ends the pass becomes its end: a result is accepted, an error returned. */
  ghost predicate Ends(a: NodeAnswer, index: nat, end: PassEnd) {
    match a
    case OpenFailed(_) => false
    case Sent(Ok(r)) => end == Accepted(index, r)
    case Sent(Err(e)) => end == Rejected(index, e)
  }

  /** What the scan does with an answer, in terms of the answer. */
  lemma JudgeTells(a: NodeAnswer, n: nat)
    ensures GoesOn(a, n) <==> !Judge(a, n).Decisive()
    ensures !GoesOn(a, n) ==> a.Sent? && Judge(a, n) == match a.reply case Ok(r) => Accept(r) case Err(e) => Reject(e)
    ensures GoesOn(a, n) ==>
              && (Judge(a, n).WrongNode? <==> a.Sent? && a.reply.Ok?) && (Judge(a, n).Unreachable? <==> a.OpenFailed?)
              && (Judge(a, n).WrongNode? ==> StateOf(a) == Some(Judge(a, n).result) && ErrorOf(a).None?)
              && (!Judge(a, n).WrongNode? ==> StateOf(a).None? && ErrorOf(a) == Some(Judge(a, n).error))
  {
  }

  /** A pass stops at the first node, in ring order, whose answer ends it; otherwise it goes all the way round. */
  lemma {:induction false} PassStopsAtFirstDecisive(answers: nat -> NodeAnswer, n: nat, start: nat, offset: nat,
                                                    scan: Scan)
    returns (stop: nat)
    requires offset <= n && n > 0
    ensures offset <= stop <= n
    ensures forall j :: offset <= j < stop ==> GoesOn(AnswerAt(answers, n, start, j), n)
    ensures var end := ScanFrom(answers, n, start, offset, scan).0;
            if stop == n then end == Through
            else !GoesOn(AnswerAt(answers, n, start, stop), n)
                 && Ends(AnswerAt(answers, n, start, stop), Ring(start, stop, n), end)
    decreases n - offset
  {
    if offset < n {
      JudgeTells(AnswerAt(answers, n, start, offset), n);
    }
    if offset == n || !GoesOn(AnswerAt(answers, n, start, offset), n) {
      stop := offset;
    } else {
      var scan' := Absorb(scan, VerdictAt(answers, n, start, offset));
      stop := PassStopsAtFirstDecisive(answers, n, start, offset + 1, scan');
    }
  }

  /** The retry state after a pass: redirected exactly when some node before the stop was reached and answered. */
  lemma {:induction false} PassRedirects(answers: nat -> NodeAnswer, n: nat, start: nat, offset: nat, scan: Scan,
                                         stop: nat)
    requires offset <= stop <= n && n > 0 && (stop < n ==> !GoesOn(AnswerAt(answers, n, start, stop), n))
    requires forall j :: offset <= j < stop ==> GoesOn(AnswerAt(answers, n, start, j), n)
    ensures ScanFrom(answers, n, start, offset, scan).1.retry
         == if exists j :: offset <= j < stop && AnswerAt(answers, n, start, j).Sent? then Redirected else scan.retry
    decreases n - offset
  {
    if offset < n {
      JudgeTells(AnswerAt(answers, n, start, offset), n);
      if offset < stop {
        var scan' := Absorb(scan, VerdictAt(answers, n, start, offset));
        PassRedirects(answers, n, start, offset + 1, scan', stop);
      }
    }
  }

  ghost predicate NoState(answers: nat -> NodeAnswer, n: nat, start: nat, from: nat)
    requires n > 0
  {
    forall i :: from <= i < n ==> StateOf(AnswerAt(answers, n, start, i)).None?
  }

  ghost predicate NoError(answers: nat -> NodeAnswer, n: nat, start: nat, from: nat)
    requires n > 0
  {
    forall i :: from <= i < n ==> ErrorOf(AnswerAt(answers, n, start, i)).None?
  }

  lemma {:induction false} NothingToRemember(answers: nat -> NodeAnswer, n: nat, start: nat, offset: nat, scan: Scan)
    requires offset <= n && n > 0 && ScanFrom(answers, n, start, offset, scan).0 == Through
    ensures NoState(answers, n, start, offset) ==>
        ScanFrom(answers, n, start, offset, scan).1.lastState == scan.lastState
    ensures NoError(answers, n, start, offset) ==>
        ScanFrom(answers, n, start, offset, scan).1.lastError == scan.lastError
    decreases n - offset
  {
    if offset < n {
      var v := VerdictAt(answers, n, start, offset);
      NothingToRemember(answers, n, start, offset + 1, Absorb(scan, v));
    }
  }

  /** After a pass that went all the way round, the remembered STATE_ERROR is the last one in ring order. */
  lemma {:induction false} RemembersLastState(answers: nat -> NodeAnswer, n: nat, start: nat, offset: nat,
                                              scan: Scan, j: nat)
    requires offset <= j < n && ScanFrom(answers, n, start, offset, scan).0 == Through
    requires StateOf(AnswerAt(answers, n, start, j)).Some? && NoState(answers, n, start, j + 1)
    ensures ScanFrom(answers, n, start, offset, scan).1.lastState == StateOf(AnswerAt(answers, n, start, j))
    decreases n - offset
  {
    var scan' := Absorb(scan, VerdictAt(answers, n, start, offset));
    if offset < j {
      RemembersLastState(answers, n, start, offset + 1, scan', j);
    } else {
      NothingToRemember(answers, n, start, offset + 1, scan');
    }
  }

  /** And so is the remembered error. */
  lemma {:induction false} RemembersLastError(answers: nat -> NodeAnswer, n: nat, start: nat, offset: nat,
                                              scan: Scan, j: nat)
    requires offset <= j < n && ScanFrom(answers, n, start, offset, scan).0 == Through
    requires ErrorOf(AnswerAt(answers, n, start, j)).Some? && NoError(answers, n, start, j + 1)
    ensures ScanFrom(answers, n, start, offset, scan).1.lastError == ErrorOf(AnswerAt(answers, n, start, j))
    decreases n - offset
  {
    var scan' := Absorb(scan, VerdictAt(answers, n, start, offset));
    if offset < j {
      RemembersLastError(answers, n, start, offset + 1, scan', j);
    } else {
      NothingToRemember(answers, n, start, offset + 1, scan');
    }
  }

  /** The ring visits every node, and none of them twice. */
  lemma RingVisitsOnce(start: nat, n: nat, i: nat, j: nat)
    requires start < n && i < n && j < n
    ensures Ring(start, i, n) == Ring(start, j, n) <==> i == j
    ensures exists k: nat :: k < n && Ring(start, k, n) == i
  {
    RingWraps(start, i, n);
    RingWraps(start, j, n);
    var k := if i >= start then i - start else i + n - start;
    RingWraps(start, k, n);
    assert Ring(start, k, n) == i;
  }

  lemma RingWraps(start: nat, offset: nat, n: nat)
    requires start < n && offset < n
    ensures Ring(start, offset, n) == if start + offset < n then start + offset else start + offset - n
  {
    if start + offset >= n {
      OneTurn(start + offset - n, n);
    }
  }

  lemma OneTurn(b: nat, n: nat)
    requires b < n
    ensures (b + n) % n == b
  {
  }

  // ---------------------------------------------------------------- passes until the deadline

  const REPLSET_RETRY_INTERVAL := 25_000_000  // nanoseconds

  /** Everything a call meets: the answer of each node in each pass, the two clock readings of each pass (deadline
      check, and length of the sleep), and what other callers left in the active index before each pass. */
  datatype Env = Env(
    answers: nat -> nat -> NodeAnswer, check: nat -> int, nap: nat -> int, others: nat -> Option<Option<nat>>)

  function SleepTime(deadline: int, now: int): nat {
    var left := if now < deadline then deadline - now else 0;
    if left < REPLSET_RETRY_INTERVAL then left else REPLSET_RETRY_INTERVAL
  }

  /** A sleep lasts 25 milliseconds or up to the deadline, whichever comes first; past the deadline it is none. */
  lemma SleepsToTheDeadline(deadline: int, now: int)
    ensures now < deadline ==>
        now + SleepTime(deadline, now) == if deadline < now + 25_000_000 then deadline else now + 25_000_000
    ensures now >= deadline ==> SleepTime(deadline, now) == 0
  {
  }

  /** The clock never goes back and a sleep never ends early. */
  ghost predicate ClockOk(env: Env, deadline: int) {
    forall k: nat :: env.check(k) <= env.nap(k) && env.nap(k) + SleepTime(deadline, env.nap(k)) <= env.check(k + 1)
  }

  ghost predicate IndexOk(active: Option<nat>, n: nat) {
    active.Some? ==> active.value < n
  }

  ghost predicate OthersOk(env: Env, n: nat) {
    forall k: nat :: env.others(k).Some? ==> IndexOk(env.others(k).value, n)
  }

  function ActiveAt(env: Env, k: nat, active: Option<nat>): Option<nat> {
    if env.others(k).Some? then env.others(k).value else active
  }

  function StartOf(active: Option<nat>): nat {
    if active.Some? then active.value else 0
  }

  /** How a call ends: its reply, the active index it leaves, its retry state, and the number of its last pass. */
  datatype CallEnd = CallEnd(reply: Result<CommandResult>, active: Option<nat>, retry: RetryType, pass: nat,
                             timedOut: bool)

  /** The pass with number k, from the loop variables it starts with. */
  function Pass(env: Env, n: nat, k: nat, active: Option<nat>, lastError: Option<SlockError>, retry: RetryType)
    : (PassEnd, Scan)
  {
    ScanFrom(env.answers(k), n, StartOf(ActiveAt(env, k, active)), 0, Scan(lastError, None, retry))
  }

  ghost function CallFrom(env: Env, n: nat, deadline: int, k: nat, active: Option<nat>, lastError: Option<SlockError>,
                          retry: RetryType): (end: CallEnd)
    requires ClockOk(env, deadline)
    ensures end.pass >= k
    decreases if env.check(k) < deadline then deadline - env.check(k) else 0
  {
    var (end, scan) := Pass(env, n, k, active, lastError, retry);
    var active' := ActiveAt(env, k, active);
    match end
    case Accepted(index, r) => CallEnd(Ok(r), Some(index), scan.retry, k, false)
    case Rejected(_, e) => CallEnd(Err(e), active', scan.retry, k, false)
    case Through =>
      if scan.lastState.Some? then CallEnd(Ok(scan.lastState.value), active', scan.retry, k, false)
      else if env.check(k) >= deadline then
        CallEnd(Err(if scan.lastError.Some? then scan.lastError.value else NotConnected), active', scan.retry, k, true)
      else CallFrom(env, n, deadline, k + 1, active', scan.lastError, Woken)
  }

  /** The number of retry intervals it takes to cover a time. */
  function Intervals(left: nat): (count: nat)
    ensures left <= count * 25_000_000 < left + 25_000_000
  {
    (left + REPLSET_RETRY_INTERVAL - 1) / REPLSET_RETRY_INTERVAL
  }

  /** With D nanoseconds left at the first deadline check, a call makes at most ceil(D / 25 ms) + 1 passes. */
  lemma BoundedPasses(env: Env, n: nat, deadline: int, active: Option<nat>, retry: RetryType)
    requires ClockOk(env, deadline)
    ensures var left := if env.check(0) < deadline then deadline - env.check(0) else 0;
            CallFrom(env, n, deadline, 0, active, None, retry).pass + 1 <= Intervals(left) + 1
  {
    PassesFrom(env, n, deadline, 0, active, None, retry);
  }

  /** Each further pass starts at least a full interval after the one before, or past the deadline. */
  lemma {:induction false} PassesFrom(env: Env, n: nat, deadline: int, k: nat, active: Option<nat>,
                                      lastError: Option<SlockError>, retry: RetryType)
    requires ClockOk(env, deadline)
    ensures var left := if env.check(k) < deadline then deadline - env.check(k) else 0;
            CallFrom(env, n, deadline, k, active, lastError, retry).pass <= k + Intervals(left)
    decreases if env.check(k) < deadline then deadline - env.check(k) else 0
  {
    var (end, scan) := Pass(env, n, k, active, lastError, retry);
    if end.Through? && scan.lastState.None? && env.check(k) < deadline {
      assert env.nap(k) + SleepTime(deadline, env.nap(k)) <= env.check(k + 1);
      PassesFrom(env, n, deadline, k + 1, ActiveAt(env, k, active), scan.lastError, Woken);
    }
  }

  /** In the final pass of a call that times out every node was tried in vain, and the error returned is that of the
      last node in ring order; with at least one node the NotConnected fallback is never used. */
  lemma {:induction false} TimeoutErrorIsLastNodes(env: Env, n: nat, deadline: int, k: nat, active: Option<nat>,
                                                   lastError: Option<SlockError>, retry: RetryType)
    returns (start: nat)
    requires ClockOk(env, deadline) && OthersOk(env, n) && IndexOk(active, n) && n > 0
    requires CallFrom(env, n, deadline, k, active, lastError, retry).timedOut
    ensures start < n
    ensures var end := CallFrom(env, n, deadline, k, active, lastError, retry);
            && (env.others(end.pass).Some? ==> start == StartOf(env.others(end.pass).value))
            && env.check(end.pass) >= deadline
            && (forall j :: 0 <= j < n ==> ErrorOf(AnswerAt(env.answers(end.pass), n, start, j)).Some?)
            && end.reply == Err(ErrorOf(AnswerAt(env.answers(end.pass), n, start, n - 1)).value)
    decreases if env.check(k) < deadline then deadline - env.check(k) else 0
  {
    var (end, scan) := Pass(env, n, k, active, lastError, retry);
    start := StartOf(ActiveAt(env, k, active));
    if env.check(k) >= deadline {
      var answers, first := env.answers(k), Scan(lastError, None, retry);
      var stop := PassStopsAtFirstDecisive(answers, n, start, 0, first);
      NoStateSeen(answers, n, start, first);
      RemembersLastError(answers, n, start, 0, first, n - 1);
    } else {
      start := TimeoutErrorIsLastNodes(env, n, deadline, k + 1, ActiveAt(env, k, active), scan.lastError, Woken);
    }
  }

  /** Every pass before the last was in vain: no node of the set ended it, none gave a STATE_ERROR, and the deadline
      had not come. */
  lemma {:induction false} EarlierPassesInVain(env: Env, n: nat, deadline: int, k: nat, active: Option<nat>,
                                               lastError: Option<SlockError>, retry: RetryType, m: nat, node: nat)
    requires ClockOk(env, deadline) && OthersOk(env, n) && IndexOk(active, n) && node < n
    requires k <= m < CallFrom(env, n, deadline, k, active, lastError, retry).pass
    ensures env.check(m) < deadline && GoesOn(env.answers(m)(node), n) && StateOf(env.answers(m)(node)).None?
    decreases if env.check(k) < deadline then deadline - env.check(k) else 0
  {
    var (end, scan) := Pass(env, n, k, active, lastError, retry);
    if k == m {
      var start, answers, first := StartOf(ActiveAt(env, k, active)), env.answers(k), Scan(lastError, None, retry);
      var stop := PassStopsAtFirstDecisive(answers, n, start, 0, first);
      LastWrongNode(answers, n, start, n, first);
      RingVisitsOnce(start, n, node, node);
      var j: nat :| j < n && Ring(start, j, n) == node;
      assert AnswerAt(answers, n, start, j) == answers(node);
    } else {
      EarlierPassesInVain(env, n, deadline, k + 1, ActiveAt(env, k, active), scan.lastError, Woken, m, node);
    }
  }

  /** The retry state a call ends with: redirected when its last pass was, else as it began, or woken after a sleep. */
  lemma {:induction false} EndsRedirectedOrWoken(env: Env, n: nat, deadline: int, k: nat, active: Option<nat>,
                                                 lastError: Option<SlockError>, retry: RetryType)
    requires ClockOk(env, deadline) && n > 0
    ensures var end := CallFrom(env, n, deadline, k, active, lastError, retry);
            end.retry == Redirected || end.retry == if end.pass == k then retry else Woken
    decreases if env.check(k) < deadline then deadline - env.check(k) else 0
  {
    var (end, scan) := Pass(env, n, k, active, lastError, retry);
    var start, answers, first := StartOf(ActiveAt(env, k, active)), env.answers(k), Scan(lastError, None, retry);
    var stop := PassStopsAtFirstDecisive(answers, n, start, 0, first);
    PassRedirects(answers, n, start, 0, first, stop);
    if end.Through? && scan.lastState.None? && env.check(k) < deadline {
      EndsRedirectedOrWoken(env, n, deadline, k + 1, ActiveAt(env, k, active), scan.lastError, Woken);
    }
  }

  /** A full pass that remembers no STATE_ERROR met none, so every node gave an error. */
  lemma NoStateSeen(answers: nat -> NodeAnswer, n: nat, start: nat, scan: Scan)
    requires n > 0 && scan.lastState.None?
    requires ScanFrom(answers, n, start, 0, scan).0 == Through && ScanFrom(answers, n, start, 0, scan).1.lastState.None?
    ensures forall j :: 0 <= j < n ==> ErrorOf(AnswerAt(answers, n, start, j)).Some?
  {
    var stop := PassStopsAtFirstDecisive(answers, n, start, 0, scan);
    LastWrongNode(answers, n, start, n, scan);
    forall j | 0 <= j < n
      ensures ErrorOf(AnswerAt(answers, n, start, j)).Some?
    {
      assert GoesOn(AnswerAt(answers, n, start, j), n) && StateOf(AnswerAt(answers, n, start, j)).None?;
    }
  }

  lemma {:induction false} LastWrongNode(answers: nat -> NodeAnswer, n: nat, start: nat, from: nat, scan: Scan)
    requires n > 0 && from <= n && NoState(answers, n, start, from)
    requires ScanFrom(answers, n, start, 0, scan).0 == Through && ScanFrom(answers, n, start, 0, scan).1.lastState.None?
    ensures NoState(answers, n, start, 0)
  {
    if from > 0 {
      if StateOf(AnswerAt(answers, n, start, from - 1)).Some? {
        RemembersLastState(answers, n, start, 0, scan, from - 1);
      }
      LastWrongNode(answers, n, start, from - 1, scan);
    }
  }

  /** What decides a call that does not time out. In its last pass, started at some node, every node before `stop` in
      ring order failed to open, answered STATE_ERROR or was lost. If `stop` is a node, its answer is the reply, and an
      accepted one makes it the active node. Otherwise nobody decided, and the reply is the STATE_ERROR of the last node
      in ring order that gave one; then the active index is as the pass found it. */
  lemma {:induction false} ReplyIsDecided(env: Env, n: nat, deadline: int, k: nat, active: Option<nat>,
                                          lastError: Option<SlockError>, retry: RetryType)
    returns (start: nat, stop: nat)
    requires ClockOk(env, deadline) && OthersOk(env, n) && IndexOk(active, n) && n > 0
    requires !CallFrom(env, n, deadline, k, active, lastError, retry).timedOut
    ensures start < n && stop <= n
    ensures var end := CallFrom(env, n, deadline, k, active, lastError, retry);
            var answers := env.answers(end.pass);
            && (forall j :: 0 <= j < stop ==> GoesOn(AnswerAt(answers, n, start, j), n))
            && (stop < n ==> !GoesOn(AnswerAt(answers, n, start, stop), n)
                             && AnswerAt(answers, n, start, stop) == Sent(end.reply))
            && (stop < n && end.reply.Ok? ==> end.active == Some(Ring(start, stop, n)))
            && ((stop < n && end.reply.Err?) || stop == n ==> StartOf(end.active) == start)
            && (stop == n ==> exists j :: 0 <= j < n && StateOf(AnswerAt(answers, n, start, j)).Some?
                                          && NoState(answers, n, start, j + 1)
                                          && end.reply == Ok(StateOf(AnswerAt(answers, n, start, j)).value))
    decreases if env.check(k) < deadline then deadline - env.check(k) else 0
  {
    var (end, scan) := Pass(env, n, k, active, lastError, retry);
    start := StartOf(ActiveAt(env, k, active));
    var answers, first := env.answers(k), Scan(lastError, None, retry);
    stop := PassStopsAtFirstDecisive(answers, n, start, 0, first);
    if stop == n {
      if scan.lastState.Some? {
        var j := SomeStateIsLast(answers, n, start, first);
      } else {
        start, stop := ReplyIsDecided(env, n, deadline, k + 1, ActiveAt(env, k, active), scan.lastError, Woken);
      }
    }
  }

  lemma SomeStateIsLast(answers: nat -> NodeAnswer, n: nat, start: nat, scan: Scan) returns (j: nat)
    requires n > 0 && scan.lastState.None?
    requires ScanFrom(answers, n, start, 0, scan).0 == Through && ScanFrom(answers, n, start, 0, scan).1.lastState.Some?
    ensures j < n && StateOf(AnswerAt(answers, n, start, j)).Some? && NoState(answers, n, start, j + 1)
    ensures ScanFrom(answers, n, start, 0, scan).1.lastState == StateOf(AnswerAt(answers, n, start, j))
  {
    j := FindLastState(answers, n, start, n, scan);
    RemembersLastState(answers, n, start, 0, scan, j);
  }

  lemma {:induction false} FindLastState(answers: nat -> NodeAnswer, n: nat, start: nat, from: nat, scan: Scan)
    returns (j: nat)
    requires n > 0 && scan.lastState.None? && from <= n && NoState(answers, n, start, from)
    requires ScanFrom(answers, n, start, 0, scan).0 == Through && ScanFrom(answers, n, start, 0, scan).1.lastState.Some?
    ensures j < n && StateOf(AnswerAt(answers, n, start, j)).Some? && NoState(answers, n, start, j + 1)
  {
    if from == 0 {
      NothingToRemember(answers, n, start, 0, scan);
      assert false;
    } else if StateOf(AnswerAt(answers, n, start, from - 1)).Some? {
      j := from - 1;
    } else {
      j := FindLastState(answers, n, start, from - 1, scan);
    }
  }

  /** A call that ends without an accepted reply leaves the active index alone: with no other caller, it is the one
      the call began with. */
  lemma {:induction false} OnlyAcceptMovesActive(env: Env, n: nat, deadline: int, k: nat, active: Option<nat>,
                                                 lastError: Option<SlockError>, retry: RetryType)
    requires ClockOk(env, deadline) && forall i: nat :: env.others(i).None?
    ensures var end := CallFrom(env, n, deadline, k, active, lastError, retry);
            end.active == active || (end.active.Some? && end.reply.Ok?
                                     && (n > 1 ==> !LockStateError(end.reply.value)))
    decreases if env.check(k) < deadline then deadline - env.check(k) else 0
  {
    var (end, scan) := Pass(env, n, k, active, lastError, retry);
    match end {
      case Accepted(index, r) =>
        AcceptedIsNoStateError(env.answers(k), n, StartOf(active), 0, Scan(lastError, None, retry));
      case Rejected(_, _) =>
      case Through =>
        if scan.lastState.None? && env.check(k) < deadline {
          OnlyAcceptMovesActive(env, n, deadline, k + 1, active, scan.lastError, Woken);
        }
    }
  }

  lemma {:induction false} AcceptedIsNoStateError(answers: nat -> NodeAnswer, n: nat, start: nat, offset: nat,
                                                  scan: Scan)
    requires offset <= n
    ensures var end := ScanFrom(answers, n, start, offset, scan).0;
            end.Accepted? ==> end.index < n && (n > 1 ==> !LockStateError(end.result))
    decreases n - offset
  {
    if offset < n {
      AcceptedIsNoStateError(answers, n, start, offset + 1, Absorb(scan, Judge(answers(Ring(start, offset, n)), n)));
    }
  }
}
