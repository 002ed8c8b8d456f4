/** Any number of callers sharing one replica-set client: the queue, the retry states and the active index over every
    interleaving (src/blocking/replset.rs). A step is one mutex region together with the local work before it. */
module ReplsetRuns {
  import opened Bytes
  import opened Protocol
  import opened Replset
  import opened ReplsetClient

  datatype Pc =
    | Between(lastError: Option<SlockError>)                  // about to read the active index
    | Scanning(start: nat, offset: nat, lastError: Option<SlockError>, lastState: Option<CommandResult>)
    | Accepting(index: nat, result: CommandResult)            // about to store the active index
    | Sleeping(lastError: Option<SlockError>)
    | Returning(reply: Result<CommandResult>)                 // about to leave the queue
    | Finished

  datatype Caller = Caller(id: Id16, deadline: int, retry: RetryType, pc: Pc) {
    /** What the queue should hold for this caller: its id, its local copy of the retry state, its fixed deadline. */
    function Entry(): PendingCommand {
      PendingCommand(id, retry, deadline)
    }
  }

  /** `arrivals` records every push in order and is never shortened. */
  datatype State = State(
    n: nat, active: Option<nat>, queue: seq<PendingCommand>, callers: map<nat, Caller>, arrivals: seq<nat>)

  datatype Action =
    | Push(c: nat, id: Id16, deadline: int)
    | ReadActive(c: nat)
    | Try(c: nat, answer: NodeAnswer)
    | Store(c: nat)
    | EndPass(c: nat, now: int)
    | Wake(c: nat)
    | Remove(c: nat)
    | OpenChooses(index: nat)
    | CloseAll

  function Move(s: State, c: nat, pc: Pc): State
    requires c in s.callers
  {
    s.(callers := s.callers[c := s.callers[c].(pc := pc)])
  }

  /** The local copy changes, and the queue with it. */
  function SetRetry(s: State, c: nat, retry: RetryType, pc: Pc): State
    requires c in s.callers
  {
    s.(callers := s.callers[c := s.callers[c].(retry := retry, pc := pc)],
       queue := UpdateFirst(s.queue, s.callers[c].id, retry))
  }

  function NextTry(s: State, c: nat, answer: NodeAnswer): Option<State>
    requires c in s.callers
  {
    match s.callers[c].pc
    case Scanning(start, offset, lastError, lastState) =>
      if offset >= s.n then None else
      (match Judge(answer, s.n)
       case Unreachable(e) => Some(Move(s, c, Scanning(start, offset + 1, Some(e), lastState)))
       case WrongNode(r) => Some(SetRetry(s, c, Redirected, Scanning(start, offset + 1, lastError, Some(r))))
       case Lost(e) => Some(SetRetry(s, c, Redirected, Scanning(start, offset + 1, Some(e), lastState)))
       case Accept(r) => Some(Move(s, c, Accepting(Ring(start, offset, s.n), r)))
       case Reject(e) => Some(Move(s, c, Returning(Err(e)))))
    case _ => None
  }

  function NextEndPass(s: State, c: nat, now: int): Option<State>
    requires c in s.callers
  {
    match s.callers[c].pc
    case Scanning(_, offset, lastError, lastState) =>
      if offset < s.n then None
      else if lastState.Some? then Some(Move(s, c, Returning(Ok(lastState.value))))
      else if now >= s.callers[c].deadline then
        Some(Move(s, c, Returning(Err(if lastError.Some? then lastError.value else NotConnected))))
      else Some(SetRetry(s, c, RetryType.Pending, Sleeping(lastError)))
    case _ => None
  }

  function Next(s: State, a: Action): Option<State> {
    match a
    case Push(c, id, deadline) =>
      if c in s.callers || s.n == 0 then None else
      var caller := Caller(id, deadline, Origin, Between(None));
      Some(s.(callers := s.callers[c := caller], queue := s.queue + [caller.Entry()], arrivals := s.arrivals + [c]))
    case ReadActive(c) =>
      if c in s.callers && s.callers[c].pc.Between? then
        Some(Move(s, c, Scanning(StartOf(s.active), 0, s.callers[c].pc.lastError, None)))
      else None
    case Try(c, answer) => if c in s.callers then NextTry(s, c, answer) else None
    case Store(c) =>
      if c in s.callers && s.callers[c].pc.Accepting? then
        Some(Move(s.(active := Some(s.callers[c].pc.index)), c, Returning(Ok(s.callers[c].pc.result))))
      else None
    case EndPass(c, now) => if c in s.callers then NextEndPass(s, c, now) else None
    case Wake(c) =>
      if c in s.callers && s.callers[c].pc.Sleeping? then
        Some(SetRetry(s, c, Woken, Between(s.callers[c].pc.lastError)))
      else None
    case Remove(c) =>
      if c in s.callers && s.callers[c].pc.Returning? then
        Some(Move(s.(queue := Without(s.queue, s.callers[c].id)), c, Finished))
      else None
    case OpenChooses(index) => if index < s.n then Some(s.(active := Some(index))) else None
    case CloseAll => Some(s.(active := None))
  }

  function Run(s: State, actions: seq<Action>): Option<State>
    decreases |actions|
  {
    if actions == [] then Some(s) else
    match Run(s, actions[..|actions| - 1])
    case None => None
    case Some(t) => Next(t, actions[|actions| - 1])
  }

  function Fresh(n: nat): State {
    State(n, None, [], map[], [])
  }

  // ---------------------------------------------------------------- active index and retry states

  /** A caller's retry state is Pending exactly while it sleeps. */
  ghost predicate RetryOk(caller: Caller) {
    caller.pc.Sleeping? <==> caller.retry.Pending?
  }

  ghost predicate Basic(s: State) {
    && IndexOk(s.active, s.n)
    && (forall c :: c in s.callers ==> RetryOk(s.callers[c]))
    && (forall c :: c in s.callers && s.callers[c].pc.Accepting? ==> s.callers[c].pc.index < s.n)
    && (forall i :: 0 <= i < |s.arrivals| ==> s.arrivals[i] in s.callers)
    && (forall i, j :: 0 <= i < j < |s.arrivals| ==> s.arrivals[i] != s.arrivals[j])
    && (forall c :: c in s.callers ==> c in s.arrivals)
  }

  /** The changes the protocol allows. */
  predicate LegalChange(a: RetryType, b: RetryType) {
    a == b || (if a.Pending? then b.Woken? else b.Redirected? || b.Pending?)
  }

  ghost predicate LegalStep(s: State, t: State) {
    && Basic(t) && t.n == s.n
    && (forall c :: c in s.callers ==> c in t.callers && SameCall(s.callers[c], t.callers[c]))
  }

  /** Same id and deadline, and a legal change of the retry state. */
  predicate SameCall(a: Caller, b: Caller) {
    a.id == b.id && a.deadline == b.deadline && LegalChange(a.retry, b.retry)
  }

  lemma MoveIsLegal(s: State, t: State, c: nat)
    requires Basic(s) && c in s.callers && c in t.callers && t.callers == s.callers[c := t.callers[c]]
    requires t.n == s.n && t.arrivals == s.arrivals && IndexOk(t.active, s.n)
    requires SameCall(s.callers[c], t.callers[c]) && RetryOk(t.callers[c])
    requires t.callers[c].pc.Accepting? ==> t.callers[c].pc.index < s.n
    ensures LegalStep(s, t)
  {
  }

  lemma PushIsLegal(s: State, a: Action)
    requires Basic(s) && a.Push? && Next(s, a).Some?
    ensures LegalStep(s, Next(s, a).value)
  {
    var t := Next(s, a).value;
    assert t.arrivals == s.arrivals + [a.c];
    assert forall c :: c in t.arrivals <==> c in s.arrivals || c == a.c;
  }

  lemma TryIsLegal(s: State, c: nat, answer: NodeAnswer)
    requires Basic(s) && c in s.callers && NextTry(s, c, answer).Some?
    ensures LegalStep(s, NextTry(s, c, answer).value)
  {
    MoveIsLegal(s, NextTry(s, c, answer).value, c);
  }

  lemma EndPassIsLegal(s: State, c: nat, now: int)
    requires Basic(s) && c in s.callers && NextEndPass(s, c, now).Some?
    ensures LegalStep(s, NextEndPass(s, c, now).value)
  {
    MoveIsLegal(s, NextEndPass(s, c, now).value, c);
  }

  lemma ActiveIsLegal(s: State, a: Action)
    requires Basic(s) && (a.OpenChooses? || a.CloseAll?) && Next(s, a).Some?
    ensures LegalStep(s, Next(s, a).value)
  {
  }

  /** One step: the active index stays inside the ring, and every caller's retry state stays or changes legally. */
  lemma StepIsLegal(s: State, a: Action)
    requires Basic(s) && Next(s, a).Some?
    ensures LegalStep(s, Next(s, a).value)
  {
    var t := Next(s, a).value;
    match a {
      case Push(_, _, _) => PushIsLegal(s, a);
      case Try(c, answer) => TryIsLegal(s, c, answer);
      case EndPass(c, now) => EndPassIsLegal(s, c, now);
      case ReadActive(c) => MoveIsLegal(s, t, c);
      case Store(c) => MoveIsLegal(s, t, c);
      case Wake(c) => MoveIsLegal(s, t, c);
      case Remove(c) => MoveIsLegal(s, t, c);
      case _ => ActiveIsLegal(s, a);
    }
  }

  lemma {:induction false} RunIsLegal(s: State, actions: seq<Action>)
    requires Basic(s) && Run(s, actions).Some?
    ensures Basic(Run(s, actions).value) && Run(s, actions).value.n == s.n
    decreases |actions|
  {
    if actions != [] {
      RunIsLegal(s, actions[..|actions| - 1]);
      StepIsLegal(Run(s, actions[..|actions| - 1]).value, actions[|actions| - 1]);
    }
  }

  /** Over every run of open, close and send by any number of callers, the active index is unset or names a node, so
      `client()` never needs its stand-in. */
  lemma ActiveIndexInRing(n: nat, actions: seq<Action>)
    requires Run(Fresh(n), actions).Some?
    ensures IndexOk(Run(Fresh(n), actions).value.active, n)
    ensures n > 0 ==> StartOf(Run(Fresh(n), actions).value.active) < n
  {
    RunIsLegal(Fresh(n), actions);
  }

  /** An answer that a caller accepts makes its node the active one, and is what the caller returns. */
  lemma AcceptedBecomesActive(s: State, c: nat, r: CommandResult, t: State, u: State)
    requires s.n > 0 && Next(s, Try(c, Sent(Ok(r)))) == Some(t) && c in t.callers && t.callers[c].pc.Accepting?
    requires Next(t, Store(c)) == Some(u)
    ensures c in s.callers && s.callers[c].pc.Scanning? && t.active == s.active
    ensures u.active == Some((s.callers[c].pc.start + s.callers[c].pc.offset) % s.n)
    ensures c in u.callers && u.callers[c].pc == Returning(Ok(r))
  {
  }

  /** Nothing else that a caller does moves the active index. */
  lemma OnlyStoreMovesActive(s: State, a: Action)
    requires Next(s, a).Some? && !a.Store? && !a.OpenChooses? && !a.CloseAll?
    ensures Next(s, a).value.active == s.active
  {
  }

  // ---------------------------------------------------------------- the queue

  /** The entries of the callers that have not finished, in arrival order. */
  ghost function Queued(arrivals: seq<nat>, callers: map<nat, Caller>): seq<PendingCommand>
    requires forall i :: 0 <= i < |arrivals| ==> arrivals[i] in callers
  {
    if arrivals == [] then []
    else if callers[arrivals[0]].pc.Finished? then Queued(arrivals[1..], callers)
    else [callers[arrivals[0]].Entry()] + Queued(arrivals[1..], callers)
  }

  predicate Unfinished(s: State, c: nat)
    requires c in s.callers
  {
    !s.callers[c].pc.Finished?
  }

  ghost predicate Distinct(s: State) {
    forall c, d :: c in s.callers && d in s.callers && c != d && Unfinished(s, c) && Unfinished(s, d) ==>
      s.callers[c].id != s.callers[d].id
  }

  ghost predicate DistinctThroughout(s: State, actions: seq<Action>)
    decreases |actions|
  {
    && (actions != [] ==> DistinctThroughout(s, actions[..|actions| - 1]))
    && (Run(s, actions).Some? ==> Distinct(Run(s, actions).value))
  }

  ghost predicate QueueExact(s: State) {
    && (forall i :: 0 <= i < |s.arrivals| ==> s.arrivals[i] in s.callers)
    && s.queue == Queued(s.arrivals, s.callers)
  }

  lemma {:induction false} QueuedAppend(arrivals: seq<nat>, callers: map<nat, Caller>, c: nat)
    requires forall i :: 0 <= i < |arrivals| ==> arrivals[i] in callers
    requires c in callers && !callers[c].pc.Finished?
    ensures Queued(arrivals + [c], callers) == Queued(arrivals, callers) + [callers[c].Entry()]
  {
    if arrivals == [] {
      assert ([] + [c])[1..] == [];
    } else {
      QueuedAppend(arrivals[1..], callers, c);
      assert (arrivals + [c])[1..] == arrivals[1..] + [c];
    }
  }

  /** Only what the listed callers contribute matters. */
  lemma {:induction false} QueuedSame(arrivals: seq<nat>, callers: map<nat, Caller>, others: map<nat, Caller>)
    requires forall i :: 0 <= i < |arrivals| ==> arrivals[i] in callers && arrivals[i] in others
    requires forall i :: 0 <= i < |arrivals| ==>
               && callers[arrivals[i]].pc.Finished? == others[arrivals[i]].pc.Finished?
               && callers[arrivals[i]].Entry() == others[arrivals[i]].Entry()
    ensures Queued(arrivals, callers) == Queued(arrivals, others)
  {
    if arrivals != [] {
      QueuedSame(arrivals[1..], callers, others);
    }
  }

  /** Distinctness and no repetition, on a list of arrivals. */
  ghost predicate Separate(arrivals: seq<nat>, callers: map<nat, Caller>) {
    && (forall i :: 0 <= i < |arrivals| ==> arrivals[i] in callers)
    && (forall i, j :: 0 <= i < j < |arrivals| ==> arrivals[i] != arrivals[j])
    && (forall i, j :: 0 <= i < j < |arrivals| ==>
          callers[arrivals[i]].pc.Finished? || callers[arrivals[j]].pc.Finished?
          || callers[arrivals[i]].id != callers[arrivals[j]].id)
  }

  /** Updating the first entry with c's id updates c's entry. */
  lemma {:induction false} QueuedUpdate(arrivals: seq<nat>, callers: map<nat, Caller>, c: nat, after: Caller)
    requires Separate(arrivals, callers) && c in arrivals && !callers[c].pc.Finished?
    requires after == callers[c].(retry := after.retry, pc := after.pc) && !after.pc.Finished?
    ensures UpdateFirst(Queued(arrivals, callers), callers[c].id, after.retry) == Queued(arrivals, callers[c := after])
  {
    var rest := arrivals[1..];
    if arrivals[0] == c {
      assert Queued(arrivals, callers)[1..] == Queued(rest, callers);
      QueuedSame(rest, callers, callers[c := after]);
    } else {
      assert c in rest;
      QueuedUpdate(rest, callers, c, after);
      if !callers[arrivals[0]].pc.Finished? {
        var j :| 0 <= j < |rest| && rest[j] == c;
        assert arrivals[j + 1] == c;
        assert Queued(arrivals, callers)[1..] == Queued(rest, callers);
      }
    }
  }

  /** Removing every entry with c's id removes c's entry and nothing else. */
  lemma {:induction false} QueuedRemove(arrivals: seq<nat>, callers: map<nat, Caller>, c: nat)
    requires Separate(arrivals, callers) && c in arrivals && !callers[c].pc.Finished?
    ensures Without(Queued(arrivals, callers), callers[c].id)
         == Queued(arrivals, callers[c := callers[c].(pc := Finished)])
  {
    var rest, after := arrivals[1..], callers[c := callers[c].(pc := Finished)];
    if arrivals[0] == c {
      assert Queued(arrivals, callers)[1..] == Queued(rest, callers);
      QueuedSame(rest, callers, after);
      NoneQueued(rest, callers, callers[c].id);
    } else {
      assert c in rest;
      QueuedRemove(rest, callers, c);
      if !callers[arrivals[0]].pc.Finished? {
        var j :| 0 <= j < |rest| && rest[j] == c;
        assert arrivals[j + 1] == c;
        assert Queued(arrivals, callers)[1..] == Queued(rest, callers);
      }
    }
  }

  lemma {:induction false} NoneQueued(arrivals: seq<nat>, callers: map<nat, Caller>, id: Id16)
    requires forall i :: 0 <= i < |arrivals| ==>
               arrivals[i] in callers && (callers[arrivals[i]].pc.Finished? || callers[arrivals[i]].id != id)
    ensures Without(Queued(arrivals, callers), id) == Queued(arrivals, callers)
  {
    if arrivals != [] {
      NoneQueued(arrivals[1..], callers, id);
      if !callers[arrivals[0]].pc.Finished? {
        assert Queued(arrivals, callers)[1..] == Queued(arrivals[1..], callers);
      }
    }
  }

  lemma DistinctIsSeparate(s: State)
    requires Basic(s) && Distinct(s)
    ensures Separate(s.arrivals, s.callers)
  {
  }

  lemma MoveKeepsQueue(s: State, t: State, c: nat)
    requires Basic(s) && QueueExact(s) && c in s.callers && c in t.callers
    requires t.arrivals == s.arrivals && t.queue == s.queue && t.callers == s.callers[c := t.callers[c]]
    requires t.callers[c].Entry() == s.callers[c].Entry() && t.callers[c].pc.Finished? == s.callers[c].pc.Finished?
    ensures QueueExact(t)
  {
    QueuedSame(s.arrivals, s.callers, t.callers);
  }

  lemma SetRetryKeepsQueue(s: State, c: nat, retry: RetryType, pc: Pc)
    requires Basic(s) && Distinct(s) && QueueExact(s) && c in s.callers
    requires !s.callers[c].pc.Finished? && !pc.Finished?
    ensures QueueExact(SetRetry(s, c, retry, pc))
  {
    DistinctIsSeparate(s);
    QueuedUpdate(s.arrivals, s.callers, c, s.callers[c].(retry := retry, pc := pc));
  }

  lemma PushKeepsQueue(s: State, c: nat, id: Id16, deadline: int)
    requires Basic(s) && QueueExact(s) && Next(s, Push(c, id, deadline)).Some?
    ensures QueueExact(Next(s, Push(c, id, deadline)).value)
  {
    var t := Next(s, Push(c, id, deadline)).value;
    QueuedSame(s.arrivals, s.callers, t.callers);
    QueuedAppend(s.arrivals, t.callers, c);
  }

  lemma TryKeepsQueue(s: State, c: nat, answer: NodeAnswer)
    requires Basic(s) && Distinct(s) && QueueExact(s) && c in s.callers && NextTry(s, c, answer).Some?
    ensures QueueExact(NextTry(s, c, answer).value)
  {
    var t := NextTry(s, c, answer).value;
    var v := Judge(answer, s.n);
    if v.WrongNode? || v.Lost? {
      SetRetryKeepsQueue(s, c, Redirected, t.callers[c].pc);
    } else {
      MoveKeepsQueue(s, t, c);
    }
  }

  lemma EndPassKeepsQueue(s: State, c: nat, now: int)
    requires Basic(s) && Distinct(s) && QueueExact(s) && c in s.callers && NextEndPass(s, c, now).Some?
    ensures QueueExact(NextEndPass(s, c, now).value)
  {
    var t := NextEndPass(s, c, now).value;
    if t.callers[c].pc.Sleeping? {
      SetRetryKeepsQueue(s, c, RetryType.Pending, t.callers[c].pc);
    } else {
      MoveKeepsQueue(s, t, c);
    }
  }

  lemma StepKeepsQueue(s: State, a: Action)
    requires Basic(s) && Distinct(s) && QueueExact(s) && Next(s, a).Some?
    ensures QueueExact(Next(s, a).value)
  {
    var t := Next(s, a).value;
    match a {
      case Push(c, id, deadline) => PushKeepsQueue(s, c, id, deadline);
      case Try(c, answer) => TryKeepsQueue(s, c, answer);
      case EndPass(c, now) => EndPassKeepsQueue(s, c, now);
      case Wake(c) => SetRetryKeepsQueue(s, c, Woken, t.callers[c].pc);
      case Remove(c) =>
        DistinctIsSeparate(s);
        QueuedRemove(s.arrivals, s.callers, c);
      case ReadActive(c) => MoveKeepsQueue(s, t, c);
      case Store(c) => MoveKeepsQueue(s, t, c);
      case _ =>
    }
  }

  /** While the ids in flight are distinct, the queue is at every step exactly the unfinished calls in the order they
      were pushed, each with its caller's own copy of the retry state and the deadline it was pushed with. */
  lemma {:induction false} QueueIsInFlightCalls(n: nat, actions: seq<Action>)
    requires Run(Fresh(n), actions).Some? && DistinctThroughout(Fresh(n), actions)
    ensures Basic(Run(Fresh(n), actions).value) && QueueExact(Run(Fresh(n), actions).value)
    decreases |actions|
  {
    if actions != [] {
      var before := actions[..|actions| - 1];
      QueueIsInFlightCalls(n, before);
      assert DistinctThroughout(Fresh(n), before);
      StepIsLegal(Run(Fresh(n), before).value, actions[|actions| - 1]);
      StepKeepsQueue(Run(Fresh(n), before).value, actions[|actions| - 1]);
    }
  }

  /** A caller that finishes takes exactly one entry out, its own; the others keep their places. */
  lemma FinishingTakesOneEntry(n: nat, actions: seq<Action>, s: State, c: nat, t: State) returns (i: nat)
    requires Run(Fresh(n), actions) == Some(s) && DistinctThroughout(Fresh(n), actions)
    requires Next(s, Remove(c)) == Some(t)
    ensures i < |s.queue| && s.queue[i] == s.callers[c].Entry()
    ensures t.queue == s.queue[..i] + s.queue[i + 1..]
  {
    QueueIsInFlightCalls(n, actions);
    DistinctIsSeparate(s);
    i := OneEntry(s.arrivals, s.callers, c);
  }

  lemma {:induction false} OneEntry(arrivals: seq<nat>, callers: map<nat, Caller>, c: nat) returns (i: nat)
    requires Separate(arrivals, callers) && c in arrivals && !callers[c].pc.Finished?
    ensures var q := Queued(arrivals, callers);
            && i < |q| && q[i] == callers[c].Entry()
            && Without(q, callers[c].id) == q[..i] + q[i + 1..]
  {
    var rest, q := arrivals[1..], Queued(arrivals, callers);
    if arrivals[0] == c {
      i := 0;
      NoneQueued(rest, callers, callers[c].id);
      assert q[1..] == Queued(rest, callers);
    } else {
      assert c in rest;
      i := OneEntry(rest, callers, c);
      if !callers[arrivals[0]].pc.Finished? {
        var j :| 0 <= j < |rest| && rest[j] == c;
        assert arrivals[j + 1] == c;
        var later := Queued(rest, callers);
        assert q[1..] == later;
        CutBehindHead(q[0], later, i);
        i := i + 1;
      }
    }
  }

  lemma CutBehindHead(head: PendingCommand, later: seq<PendingCommand>, i: nat)
    requires i < |later|
    ensures [head] + (later[..i] + later[i + 1..]) == ([head] + later)[..i + 1] + ([head] + later)[i + 2..]
  {
  }

  /** Why ids must be distinct: a caller that finishes takes out every entry with its id, and only those. */
  lemma {:induction false} RemovesExactlyTheId(q: seq<PendingCommand>, id: Id16, e: PendingCommand)
    ensures e in Without(q, id) <==> e in q && e.requestId != id
  {
    if q != [] {
      RemovesExactlyTheId(q[1..], id, e);
      assert e in q <==> e == q[0] || e in q[1..];
    }
  }
}
