/** Each caller's steps among all the others' compute the sequential call: the projection of the machine. */
module ReplsetProjection {
  import opened Bytes
  import opened Protocol
  import opened Replset
  import opened ReplsetRuns

  /** How a call ends, but for the active index it shares with the others. */
  datatype Fate = Fate(reply: Result<CommandResult>, retry: RetryType, pass: nat, timedOut: bool)

  function FateOf(end: CallEnd): Fate {
    Fate(end.reply, end.retry, end.pass, end.timedOut)
  }

  /** Every pass of the environment starts from an index read from the shared state. */
  ghost predicate AllRead(env: Env) {
    forall k: nat :: env.others(k).Some?
  }

  /** What the sequential call makes of the end of pass k. */
  ghost function AfterPass(env: Env, n: nat, deadline: int, k: nat, end: PassEnd, scan: Scan): Fate
    requires ClockOk(env, deadline)
  {
    match end
    case Accepted(_, r) => Fate(Ok(r), scan.retry, k, false)
    case Rejected(_, e) => Fate(Err(e), scan.retry, k, false)
    case Through =>
      if scan.lastState.Some? then Fate(Ok(scan.lastState.value), scan.retry, k, false)
      else if env.check(k) >= deadline then
        Fate(Err(if scan.lastError.Some? then scan.lastError.value else NotConnected), scan.retry, k, true)
      else FateOf(CallFrom(env, n, deadline, k + 1, None, scan.lastError, Woken))
  }

  lemma CallIsPass(env: Env, n: nat, deadline: int, k: nat, active: Option<nat>, lastError: Option<SlockError>,
                   retry: RetryType)
    requires ClockOk(env, deadline) && AllRead(env)
    ensures var (end, scan) := Pass(env, n, k, active, lastError, retry);
            FateOf(CallFrom(env, n, deadline, k, active, lastError, retry)) == AfterPass(env, n, deadline, k, end, scan)
  {
    var (end, scan) := Pass(env, n, k, active, lastError, retry);
    if end.Through? && scan.lastState.None? && env.check(k) < deadline {
      ActiveIsReread(env, n, deadline, k + 1, ActiveAt(env, k, active), None, scan.lastError, Woken);
    }
  }

  lemma ActiveIsReread(env: Env, n: nat, deadline: int, k: nat, a: Option<nat>, b: Option<nat>,
                       lastError: Option<SlockError>, retry: RetryType)
    requires ClockOk(env, deadline) && AllRead(env)
    ensures CallFrom(env, n, deadline, k, a, lastError, retry) == CallFrom(env, n, deadline, k, b, lastError, retry)
  {
    assert ActiveAt(env, k, a) == ActiveAt(env, k, b);
  }

  predicate Undecided(caller: Caller) {
    !caller.pc.Returning? && !caller.pc.Finished?
  }

  /** Where an undecided caller in its pass k will end up, by the sequential call. */
  ghost function FateFrom(env: Env, n: nat, caller: Caller, k: nat): Fate
    requires ClockOk(env, caller.deadline) && OffsetOk(caller, n) && Undecided(caller)
  {
    match caller.pc
    case Between(lastError) => FateOf(CallFrom(env, n, caller.deadline, k, None, lastError, caller.retry))
    case Scanning(start, offset, lastError, lastState) =>
      var (end, scan) := ScanFrom(env.answers(k), n, start, offset, Scan(lastError, lastState, caller.retry));
      AfterPass(env, n, caller.deadline, k, end, scan)
    case Accepting(_, r) => Fate(Ok(r), caller.retry, k, false)
    case Sleeping(lastError) => FateOf(CallFrom(env, n, caller.deadline, k + 1, None, lastError, Woken))
  }

  /** A caller in its pass k is bound for a fate, or has met it. */
  ghost predicate Bound(env: Env, n: nat, caller: Caller, k: nat, fate: Fate)
    requires ClockOk(env, caller.deadline) && OffsetOk(caller, n)
  {
    match caller.pc
    case Returning(reply) => reply == fate.reply && caller.retry == fate.retry && k == fate.pass
    case Finished => k == fate.pass
    case _ => FateFrom(env, n, caller, k) == fate
  }

  predicate OffsetOk(caller: Caller, n: nat) {
    caller.pc.Scanning? ==> caller.pc.offset <= n
  }

  /** In pass k the environment gives what the caller met: the index it read, the answers, the time it checked. */
  ghost predicate Meets(env: Env, s: State, c: nat, k: nat, a: Action)
    requires c in s.callers
  {
    match a
    case ReadActive(d) => d == c ==> env.others(k) == Some(s.active)
    case Try(d, answer) =>
      d == c && s.callers[c].pc.Scanning? && s.n > 0 ==>
        env.answers(k)(Ring(s.callers[c].pc.start, s.callers[c].pc.offset, s.n)) == answer
    case EndPass(d, now) =>
      d == c && s.callers[c].pc.Scanning? && s.callers[c].pc.lastState.None? ==> env.check(k) == now
    case _ => true
  }

  lemma ReadKeepsFate(env: Env, s: State, c: nat, k: nat)
    requires c in s.callers && s.n > 0 && Next(s, ReadActive(c)).Some?
    requires ClockOk(env, s.callers[c].deadline) && AllRead(env) && env.others(k) == Some(s.active)
    ensures FateFrom(env, s.n, Next(s, ReadActive(c)).value.callers[c], k) == FateFrom(env, s.n, s.callers[c], k)
  {
    var caller := s.callers[c];
    CallIsPass(env, s.n, caller.deadline, k, None, caller.pc.lastError, caller.retry);
  }

  lemma TryKeepsFate(env: Env, s: State, c: nat, k: nat, answer: NodeAnswer, fate: Fate)
    requires c in s.callers && s.n > 0 && NextTry(s, c, answer).Some?
    requires ClockOk(env, s.callers[c].deadline) && Meets(env, s, c, k, Try(c, answer))
    requires OffsetOk(s.callers[c], s.n) && Bound(env, s.n, s.callers[c], k, fate)
    ensures var after := NextTry(s, c, answer).value.callers[c];
            after.deadline == s.callers[c].deadline && OffsetOk(after, s.n) && Bound(env, s.n, after, k, fate)
  {
  }

  lemma EndKeepsFate(env: Env, s: State, c: nat, k: nat, now: int, fate: Fate)
    requires c in s.callers && s.n > 0 && NextEndPass(s, c, now).Some?
    requires ClockOk(env, s.callers[c].deadline) && Meets(env, s, c, k, EndPass(c, now))
    requires OffsetOk(s.callers[c], s.n) && Bound(env, s.n, s.callers[c], k, fate)
    ensures var after := NextEndPass(s, c, now).value.callers[c];
            after.deadline == s.callers[c].deadline && OffsetOk(after, s.n) && Bound(env, s.n, after, k, fate)
  {
  }

  /** Pass k becomes pass k + 1 when the caller wakes. */
  function PassAfter(a: Action, c: nat, k: nat): nat {
    if a == Wake(c) then k + 1 else k
  }

  /** The caller this action moves, if any. */
  function Mover(a: Action): Option<nat> {
    match a
    case Push(c, _, _) => Some(c)
    case ReadActive(c) => Some(c)
    case Try(c, _) => Some(c)
    case Store(c) => Some(c)
    case EndPass(c, _) => Some(c)
    case Wake(c) => Some(c)
    case Remove(c) => Some(c)
    case OpenChooses(_) => None
    case CloseAll => None
  }

  lemma OthersLeaveCaller(s: State, a: Action, c: nat)
    requires c in s.callers && Next(s, a).Some? && Mover(a) != Some(c)
    ensures c in Next(s, a).value.callers && Next(s, a).value.callers[c] == s.callers[c]
    ensures Next(s, a).value.n == s.n
  {
  }

  lemma StepKeepsFate(env: Env, s: State, c: nat, k: nat, a: Action, fate: Fate)
    requires c in s.callers && s.n > 0 && OffsetOk(s.callers[c], s.n) && Next(s, a).Some?
    requires ClockOk(env, s.callers[c].deadline) && AllRead(env) && Meets(env, s, c, k, a)
    requires Bound(env, s.n, s.callers[c], k, fate)
    ensures var t := Next(s, a).value;
            && t.n == s.n && c in t.callers && t.callers[c].deadline == s.callers[c].deadline
            && OffsetOk(t.callers[c], s.n) && Bound(env, s.n, t.callers[c], PassAfter(a, c, k), fate)
  {
    if Mover(a) != Some(c) {
      OthersLeaveCaller(s, a, c);
    } else {
      match a {
        case ReadActive(_) => ReadKeepsFate(env, s, c, k);
        case Try(_, answer) => TryKeepsFate(env, s, c, k, answer, fate);
        case EndPass(_, now) => EndKeepsFate(env, s, c, k, now, fate);
        case _ =>
      }
    }
  }

  // ---------------------------------------------------------------- over runs

  function Wakes(actions: seq<Action>, c: nat): nat
    decreases |actions|
  {
    if actions == [] then 0
    else PassAfter(actions[|actions| - 1], c, Wakes(actions[..|actions| - 1], c))
  }

  /** The environment gives everything the caller met on the run. */
  ghost predicate Records(env: Env, n: nat, actions: seq<Action>, c: nat)
    decreases |actions|
  {
    actions == [] ||
      var before := actions[..|actions| - 1];
      && Records(env, n, before, c)
      && match Run(Fresh(n), before)
         case None => true
         case Some(s) => c in s.callers ==> Meets(env, s, c, Wakes(before, c), actions[|actions| - 1])
  }

  lemma {:induction false} NotYetPushed(n: nat, actions: seq<Action>, c: nat)
    requires Run(Fresh(n), actions).Some? && c !in Run(Fresh(n), actions).value.callers
    ensures Wakes(actions, c) == 0
    decreases |actions|
  {
    if actions != [] {
      var before, last := actions[..|actions| - 1], actions[|actions| - 1];
      CallersStay(Run(Fresh(n), before).value, last, c);
      NotYetPushed(n, before, c);
    }
  }

  lemma CallersStay(s: State, a: Action, c: nat)
    requires Next(s, a).Some?
    ensures c in s.callers ==> c in Next(s, a).value.callers
    ensures a == Wake(c) ==> c in Next(s, a).value.callers
    ensures c in Next(s, a).value.callers && c !in s.callers ==> a.Push? && a.c == c && s.n > 0
    ensures Next(s, a).value.n == s.n
  {
  }

  /** The caller's deadline is the one it was pushed with. */
  lemma DeadlineStays(s: State, a: Action, c: nat)
    requires c in s.callers && Next(s, a).Some?
    ensures c in Next(s, a).value.callers && Next(s, a).value.callers[c].deadline == s.callers[c].deadline
  {
  }

  /** Whatever the other callers do meanwhile, to the queue and to the active index alike, a caller is bound for the
      end of the sequential call in the environment it met, or has met it. */
  lemma {:induction false} RunIsCall(env: Env, n: nat, actions: seq<Action>, s: State, c: nat)
    requires Run(Fresh(n), actions) == Some(s) && c in s.callers
    requires ClockOk(env, s.callers[c].deadline) && AllRead(env) && Records(env, n, actions, c)
    ensures s.n == n > 0 && OffsetOk(s.callers[c], n)
    ensures var fate := FateOf(CallFrom(env, n, s.callers[c].deadline, 0, None, None, Origin));
            Bound(env, n, s.callers[c], Wakes(actions, c), fate)
    decreases |actions|
  {
    var before, last := actions[..|actions| - 1], actions[|actions| - 1];
    var u := Run(Fresh(n), before).value;
    RunHasNodes(n, before);
    CallersStay(u, last, c);
    if c in u.callers {
      DeadlineStays(u, last, c);
      RunIsCall(env, n, before, u, c);
      var fate := FateOf(CallFrom(env, n, s.callers[c].deadline, 0, None, None, Origin));
      StepKeepsFate(env, u, c, Wakes(before, c), last, fate);
    } else {
      NotYetPushed(n, before, c);
    }
  }

  lemma {:induction false} RunHasNodes(n: nat, actions: seq<Action>)
    requires Run(Fresh(n), actions).Some?
    ensures Run(Fresh(n), actions).value.n == n
    decreases |actions|
  {
    if actions != [] {
      RunHasNodes(n, actions[..|actions| - 1]);
      CallersStay(Run(Fresh(n), actions[..|actions| - 1]).value, actions[|actions| - 1], 0);
    }
  }

  /** A caller about to return returns what the sequential call does, with its retry state and in its last pass. */
  lemma ReturnsAsTheCall(env: Env, n: nat, actions: seq<Action>, s: State, c: nat)
    requires Run(Fresh(n), actions) == Some(s) && c in s.callers && s.callers[c].pc.Returning?
    requires ClockOk(env, s.callers[c].deadline) && AllRead(env) && Records(env, n, actions, c)
    ensures var end := CallFrom(env, n, s.callers[c].deadline, 0, None, None, Origin);
            s.callers[c].pc.reply == end.reply && s.callers[c].retry == end.retry && Wakes(actions, c) == end.pass
  {
    RunIsCall(env, n, actions, s, c);
  }
}
