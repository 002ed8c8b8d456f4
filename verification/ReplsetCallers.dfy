/** What is proved about the sequential call holds of every caller of the machine: an environment that gives what the
    caller met exists for every run whose clock behaves. */
module ReplsetCallers {
  import opened Bytes
  import opened Protocol
  import opened Replset
  import opened ReplsetRuns
  import opened ReplsetProjection

  // ---------------------------------------------------------------- the caller's deadline checks

  /** The pass ends without a STATE_ERROR, so the clock is read. */
  predicate ChecksDeadline(s: State, a: Action, c: nat) {
    a.EndPass? && a.c == c && c in s.callers && s.callers[c].pc.Scanning? && s.callers[c].pc.lastState.None?
  }

  /** The times at which caller c checked its deadline. */
  function Checks(n: nat, actions: seq<Action>, c: nat): seq<int>
    decreases |actions|
  {
    if actions == [] then [] else
    var before, last := actions[..|actions| - 1], actions[|actions| - 1];
    var earlier := Checks(n, before, c);
    match Run(Fresh(n), before)
    case None => earlier
    case Some(s) => if ChecksDeadline(s, last, c) then earlier + [last.now] else earlier
  }

  /** Each check comes a full sleep after the one before. */
  predicate ClockKept(checks: seq<int>, deadline: int) {
    forall j :: 0 <= j < |checks| - 1 ==> checks[j] + SleepTime(deadline, checks[j]) <= checks[j + 1]
  }

  /** The checks made so far against the pass a caller is in. */
  predicate Counted(caller: Caller, checks: nat, wakes: nat) {
    match caller.pc
    case Sleeping(_) => checks == wakes + 1
    case Returning(_) => wakes <= checks <= wakes + 1
    case Finished => wakes <= checks <= wakes + 1
    case _ => checks == wakes
  }

  lemma StepKeepsCount(s: State, a: Action, c: nat, checks: nat, wakes: nat)
    requires c in s.callers && Next(s, a).Some? && Counted(s.callers[c], checks, wakes)
    ensures c in Next(s, a).value.callers
    ensures Counted(Next(s, a).value.callers[c], if ChecksDeadline(s, a, c) then checks + 1 else checks,
                    PassAfter(a, c, wakes))
  {
    if Mover(a) != Some(c) {
      OthersLeaveCaller(s, a, c);
    }
  }

  lemma {:induction false} ChecksAreCounted(n: nat, actions: seq<Action>, s: State, c: nat)
    requires Run(Fresh(n), actions) == Some(s)
    ensures if c in s.callers then Counted(s.callers[c], |Checks(n, actions, c)|, Wakes(actions, c))
            else Checks(n, actions, c) == []
    decreases |actions|
  {
    if actions != [] {
      var before, last := actions[..|actions| - 1], actions[|actions| - 1];
      var u := Run(Fresh(n), before).value;
      ChecksAreCounted(n, before, u, c);
      CallersStay(u, last, c);
      if c in u.callers {
        StepKeepsCount(u, last, c, |Checks(n, before, c)|, Wakes(before, c));
      } else if c in s.callers {
        NotYetPushed(n, before, c);
      }
    }
  }

  /** A pass starts at a node of the set. */
  lemma {:induction false} ScansFromNode(n: nat, actions: seq<Action>, s: State, c: nat)
    requires Run(Fresh(n), actions) == Some(s) && c in s.callers && s.callers[c].pc.Scanning?
    ensures s.callers[c].pc.start < n == s.n
    decreases |actions|
  {
    var before, last := actions[..|actions| - 1], actions[|actions| - 1];
    var u := Run(Fresh(n), before).value;
    RunHasNodes(n, before);
    HasCallers(n, before, u);
    ActiveIndexInRing(n, before);
    CallersStay(u, last, c);
    if Mover(last) != Some(c) {
      OthersLeaveCaller(u, last, c);
    }
    if c in u.callers && u.callers[c].pc.Scanning? {
      ScansFromNode(n, before, u, c);
    }
  }

  lemma {:induction false} HasCallers(n: nat, actions: seq<Action>, s: State)
    requires Run(Fresh(n), actions) == Some(s)
    ensures s.n == n && (s.callers != map[] ==> n > 0)
    decreases |actions|
  {
    if actions != [] {
      var before := actions[..|actions| - 1];
      HasCallers(n, before, Run(Fresh(n), before).value);
    }
  }

  // ---------------------------------------------------------------- what a record depends on

  /** The two environments agree on everything the caller has met when it is in its pass k. */
  ghost predicate SameUsed(e: Env, f: Env, n: nat, caller: Caller, k: nat) {
    && e.check == f.check
    && (forall j: nat :: j < k ==> e.others(j) == f.others(j) && e.answers(j) == f.answers(j))
    && match caller.pc
       case Between(_) => true
       case Scanning(start, offset, _, _) =>
         e.others(k) == f.others(k)
         && (n > 0 ==> forall i: nat :: i < offset ==>
               e.answers(k)(Ring(start, i, n)) == f.answers(k)(Ring(start, i, n)))
       case _ => e.others(k) == f.others(k) && e.answers(k) == f.answers(k)
  }

  lemma StepUses(e: Env, f: Env, s: State, c: nat, k: nat, a: Action, t: State)
    requires c in s.callers && Next(s, a) == Some(t) && c in t.callers
    requires Meets(e, s, c, k, a) && SameUsed(e, f, s.n, t.callers[c], PassAfter(a, c, k))
    ensures Meets(f, s, c, k, a) && SameUsed(e, f, s.n, s.callers[c], k)
  {
    if Mover(a) != Some(c) {
      OthersLeaveCaller(s, a, c);
    } else {
      match a {
        case Try(_, answer) => TryUses(e, f, s, c, k, answer, t);
        case EndPass(_, now) =>
        case _ =>
      }
    }
  }

  lemma TryUses(e: Env, f: Env, s: State, c: nat, k: nat, answer: NodeAnswer, t: State)
    requires c in s.callers && NextTry(s, c, answer) == Some(t)
    requires Meets(e, s, c, k, Try(c, answer)) && SameUsed(e, f, s.n, t.callers[c], k)
    ensures Meets(f, s, c, k, Try(c, answer)) && SameUsed(e, f, s.n, s.callers[c], k)
  {
  }

  lemma {:induction false} NothingRecorded(f: Env, n: nat, actions: seq<Action>, c: nat)
    requires Run(Fresh(n), actions).Some? && c !in Run(Fresh(n), actions).value.callers
    ensures Records(f, n, actions, c)
    decreases |actions|
  {
    if actions != [] {
      var before, last := actions[..|actions| - 1], actions[|actions| - 1];
      CallersStay(Run(Fresh(n), before).value, last, c);
      NothingRecorded(f, n, before, c);
    }
  }

  lemma {:induction false} SameRecords(e: Env, f: Env, n: nat, actions: seq<Action>, s: State, c: nat)
    requires Run(Fresh(n), actions) == Some(s) && c in s.callers && Records(e, n, actions, c)
    requires SameUsed(e, f, n, s.callers[c], Wakes(actions, c))
    ensures Records(f, n, actions, c)
    decreases |actions|
  {
    var before, last := actions[..|actions| - 1], actions[|actions| - 1];
    var u := Run(Fresh(n), before).value;
    RunHasNodes(n, before);
    if c in u.callers {
      StepUses(e, f, u, c, Wakes(before, c), last, s);
      SameRecords(e, f, n, before, u, c);
    } else {
      NothingRecorded(f, n, before, c);
    }
  }

  // ---------------------------------------------------------------- the record of a run

  /** Everything recorded, with the clock given in advance. */
  ghost predicate Recorded(env: Env, n: nat, actions: seq<Action>, c: nat, check: nat -> int) {
    env.check == check && env.nap == check && AllRead(env) && OthersOk(env, n) && Records(env, n, actions, c)
  }

  lemma {:induction false} RecordExists(n: nat, actions: seq<Action>, s: State, c: nat, check: nat -> int)
    returns (env: Env)
    requires Run(Fresh(n), actions) == Some(s) && c in s.callers
    requires forall j :: 0 <= j < |Checks(n, actions, c)| ==> check(j) == Checks(n, actions, c)[j]
    ensures Recorded(env, n, actions, c, check)
    decreases |actions|
  {
    var before, last := actions[..|actions| - 1], actions[|actions| - 1];
    var u := Run(Fresh(n), before).value;
    RunHasNodes(n, before);
    if c in u.callers {
      assert forall j :: 0 <= j < |Checks(n, before, c)| ==> Checks(n, actions, c)[j] == Checks(n, before, c)[j];
      var e := RecordExists(n, before, u, c, check);
      env := Extend(e, n, before, u, c, last, check);
      if ChecksDeadline(u, last, c) {
        ChecksAreCounted(n, before, u, c);
      }
    } else {
      env := Env(_ => _ => OpenFailed(NotConnected), check, check, _ => Some(None));
      NothingRecorded(env, n, before, c);
    }
  }

  /** One more step is recorded in a slot that was not used before. */
  lemma Extend(e: Env, n: nat, before: seq<Action>, u: State, c: nat, last: Action, check: nat -> int) returns (f: Env)
    requires Run(Fresh(n), before) == Some(u) && c in u.callers && Recorded(e, n, before, c, check)
    requires Next(u, last).Some?
    ensures Recorded(f, n, before, c, check)
    ensures last.EndPass? || Meets(f, u, c, Wakes(before, c), last)
  {
    var k := Wakes(before, c);
    f := e;
    RunHasNodes(n, before);
    if last == ReadActive(c) {
      f := e.(others := j => if j == k then Some(u.active) else e.others(j));
      ActiveIndexInRing(n, before);
      SameRecords(e, f, n, before, u, c);
    } else if last.Try? && last.c == c && u.callers[c].pc.Scanning? && n > 0 {
      f := ExtendTry(e, n, before, u, c, last.answer, check);
    }
  }

  lemma ExtendTry(e: Env, n: nat, before: seq<Action>, u: State, c: nat, answer: NodeAnswer, check: nat -> int)
    returns (f: Env)
    requires Run(Fresh(n), before) == Some(u) && c in u.callers && Recorded(e, n, before, c, check)
    requires NextTry(u, c, answer).Some? && u.callers[c].pc.Scanning? && n == u.n > 0
    ensures Recorded(f, n, before, c, check) && Meets(f, u, c, Wakes(before, c), Try(c, answer))
  {
    var k, pc := Wakes(before, c), u.callers[c].pc;
    var node := Ring(pc.start, pc.offset, n);
    var here := (i: nat) => if i == node then answer else e.answers(k)(i);
    f := e.(answers := j => if j == k then here else e.answers(j));
    ScansFromNode(n, before, u, c);
    forall i: nat | i < pc.offset ensures Ring(pc.start, i, n) != node {
      RingVisitsOnce(pc.start, n, i, pc.offset);
    }
    SameRecords(e, f, n, before, u, c);
  }

  /** A clock that gives the checks made and then goes on as it must. */
  function CheckAt(checks: seq<int>, deadline: int, j: nat): int {
    if j < |checks| then checks[j]
    else if j == 0 then 0
    else var earlier := CheckAt(checks, deadline, j - 1); earlier + SleepTime(deadline, earlier)
  }

  lemma ClockGoesOn(checks: seq<int>, deadline: int, env: Env)
    requires ClockKept(checks, deadline)
    requires forall j: nat :: env.check(j) == CheckAt(checks, deadline, j) && env.nap(j) == CheckAt(checks, deadline, j)
    ensures ClockOk(env, deadline)
  {
    forall k: nat
      ensures env.check(k) <= env.nap(k) && env.nap(k) + SleepTime(deadline, env.nap(k)) <= env.check(k + 1)
    {
      var now := CheckAt(checks, deadline, k);
      assert k + 1 < |checks| ==> now == checks[k];
      assert now + SleepTime(deadline, now) <= CheckAt(checks, deadline, k + 1);
    }
  }

  /** For every run whose deadline checks come a sleep apart there is an environment that gives what the caller met. */
  lemma EnvironmentExists(n: nat, actions: seq<Action>, s: State, c: nat) returns (env: Env)
    requires Run(Fresh(n), actions) == Some(s) && c in s.callers
    requires ClockKept(Checks(n, actions, c), s.callers[c].deadline)
    ensures ClockOk(env, s.callers[c].deadline) && AllRead(env) && OthersOk(env, n) && Records(env, n, actions, c)
    ensures forall j :: 0 <= j < |Checks(n, actions, c)| ==> env.check(j) == Checks(n, actions, c)[j]
  {
    var checks, deadline := Checks(n, actions, c), s.callers[c].deadline;
    var check := (j: nat) => CheckAt(checks, deadline, j);
    env := RecordExists(n, actions, s, c, check);
    ClockGoesOn(checks, deadline, env);
  }

  // ---------------------------------------------------------------- the sequential results, for every caller

  /** Every caller that returns does what the sequential call does in an environment that gives what it met. */
  lemma CallerIsSequential(n: nat, actions: seq<Action>, s: State, c: nat) returns (env: Env)
    requires Run(Fresh(n), actions) == Some(s) && c in s.callers && s.callers[c].pc.Returning?
    requires ClockKept(Checks(n, actions, c), s.callers[c].deadline)
    ensures ClockOk(env, s.callers[c].deadline) && AllRead(env) && OthersOk(env, n) && Records(env, n, actions, c)
    ensures var end := CallFrom(env, n, s.callers[c].deadline, 0, None, None, Origin);
            s.callers[c].pc.reply == end.reply && s.callers[c].retry == end.retry && Wakes(actions, c) == end.pass
  {
    env := EnvironmentExists(n, actions, s, c);
    ReturnsAsTheCall(env, n, actions, s, c);
  }

  lemma FateNotBefore(env: Env, n: nat, caller: Caller, k: nat)
    requires ClockOk(env, caller.deadline) && OffsetOk(caller, n) && Undecided(caller)
    ensures FateFrom(env, n, caller, k).pass >= k
  {
  }

  /** However the others interleave, a caller that had D left at its first deadline check makes at most ceil(D / 25
      ms) + 1 passes, and one that made no check is in its first. */
  lemma CallerPassesBounded(n: nat, actions: seq<Action>, s: State, c: nat)
    requires Run(Fresh(n), actions) == Some(s) && c in s.callers
    requires ClockKept(Checks(n, actions, c), s.callers[c].deadline)
    ensures Wakes(actions, c) <= Intervals(Left(Checks(n, actions, c), s.callers[c].deadline))
  {
    ChecksAreCounted(n, actions, s, c);
    if Checks(n, actions, c) != [] {
      var env := EnvironmentExists(n, actions, s, c);
      WithinItsPasses(env, n, actions, s, c);
      PassesFromFirstCheck(env, n, Checks(n, actions, c), s.callers[c].deadline);
    }
  }

  /** What was left to the deadline at the first check. */
  function Left(checks: seq<int>, deadline: int): nat {
    if checks != [] && checks[0] < deadline then deadline - checks[0] else 0
  }

  lemma PassesFromFirstCheck(env: Env, n: nat, checks: seq<int>, deadline: int)
    requires ClockOk(env, deadline) && checks != [] && env.check(0) == checks[0]
    ensures CallFrom(env, n, deadline, 0, None, None, Origin).pass
         <= Intervals(Left(checks, deadline))
  {
    BoundedPasses(env, n, deadline, None, Origin);
  }

  lemma WithinItsPasses(env: Env, n: nat, actions: seq<Action>, s: State, c: nat)
    requires Run(Fresh(n), actions) == Some(s) && c in s.callers
    requires ClockOk(env, s.callers[c].deadline) && AllRead(env) && Records(env, n, actions, c)
    ensures Wakes(actions, c) <= CallFrom(env, n, s.callers[c].deadline, 0, None, None, Origin).pass
  {
    RunIsCall(env, n, actions, s, c);
    if Undecided(s.callers[c]) {
      FateNotBefore(env, n, s.callers[c], Wakes(actions, c));
    }
  }

  /** The pass a caller is in starts where the record says it read the active index. */
  lemma {:induction false} StartIsRecorded(env: Env, n: nat, actions: seq<Action>, s: State, c: nat)
    requires Run(Fresh(n), actions) == Some(s) && c in s.callers && s.callers[c].pc.Scanning?
    requires Records(env, n, actions, c) && AllRead(env)
    ensures s.callers[c].pc.start == StartOf(env.others(Wakes(actions, c)).value)
    decreases |actions|
  {
    var before, last := actions[..|actions| - 1], actions[|actions| - 1];
    var u := Run(Fresh(n), before).value;
    CallersStay(u, last, c);
    if Mover(last) != Some(c) {
      OthersLeaveCaller(u, last, c);
    }
    if c in u.callers && u.callers[c].pc.Scanning? {
      StartIsRecorded(env, n, before, u, c);
    }
  }

  /** A caller that gives up at its deadline tried every node of its last pass in vain, and returns the error of the
      last one in ring order; the environment holds the answers it got. */
  lemma CallerTimesOutWithLastError(n: nat, actions: seq<Action>, s: State, c: nat, now: int, t: State, e: SlockError)
    returns (env: Env)
    requires Run(Fresh(n), actions) == Some(s) && Next(s, EndPass(c, now)) == Some(t)
    requires c in s.callers && t.callers[c].pc == Returning(Err(e))
    requires ClockKept(Checks(n, actions + [EndPass(c, now)], c), s.callers[c].deadline)
    ensures Records(env, n, actions, c)
    ensures now >= s.callers[c].deadline && n > 0 && s.callers[c].pc.Scanning?
    ensures var answers, start := env.answers(Wakes(actions, c)), s.callers[c].pc.start;
            && (forall j :: 0 <= j < n ==> ErrorOf(AnswerAt(answers, n, start, j)).Some?)
            && e == ErrorOf(AnswerAt(answers, n, start, n - 1)).value
  {
    var last := EndPass(c, now);
    var all := actions + [last];
    assert all[..|all| - 1] == actions;
    env := EnvironmentExists(n, all, t, c);
    TimesOut(env, n, actions, s, c, now, e);
  }

  lemma TimesOut(env: Env, n: nat, actions: seq<Action>, s: State, c: nat, now: int, e: SlockError)
    requires Run(Fresh(n), actions) == Some(s) && c in s.callers && NextEndPass(s, c, now).Some?
    requires NextEndPass(s, c, now).value.callers[c].pc == Returning(Err(e))
    requires ClockOk(env, s.callers[c].deadline) && AllRead(env) && OthersOk(env, n) && Records(env, n, actions, c)
    requires Meets(env, s, c, Wakes(actions, c), EndPass(c, now))
    ensures now >= s.callers[c].deadline && n > 0
    ensures var answers, start := env.answers(Wakes(actions, c)), s.callers[c].pc.start;
            && (forall j :: 0 <= j < n ==> ErrorOf(AnswerAt(answers, n, start, j)).Some?)
            && e == ErrorOf(AnswerAt(answers, n, start, n - 1)).value
  {
    var k, caller := Wakes(actions, c), s.callers[c];
    RunIsCall(env, n, actions, s, c);
    StartIsRecorded(env, n, actions, s, c);
    var pc := caller.pc;
    assert ScanFrom(env.answers(k), n, pc.start, pc.offset, Scan(pc.lastError, pc.lastState, caller.retry))
        == (Through, Scan(pc.lastError, pc.lastState, caller.retry));
    var start := TimeoutErrorIsLastNodes(env, n, caller.deadline, 0, None, None, Origin);
  }
}
