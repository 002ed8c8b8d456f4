/** Identifiers drawn from the generator are distinct wherever the other guarantees ask for it. */
module InFlightIds {
  import opened Bytes
  import opened Protocol
  import opened Ids
  import ConnectionRuns
  import ConnectionGuarantees
  import ReplsetRuns
  import ReadLocks

  /** A generator: the counter's value at the start, and what the clock and the random source answer. */
  datatype Generator = Generator(start: u32, clock: nat -> u64, random: nat -> u64) {
    ghost function Id(k: nat): Id16 {
      IdAt(start, clock, random, k)
    }
  }

  /** Two draws of the generator, different and fewer than 2^31 increments apart. */
  predicate InWindow(i: nat, j: nat) {
    i != j && i < j + COUNTER_MASK_RANGE && j < i + COUNTER_MASK_RANGE
  }

  lemma WindowIsDistinct(g: Generator, i: nat, j: nat)
    requires InWindow(i, j)
    ensures g.Id(i) != g.Id(j)
  {
    if i < j {
      IdsDistinctInWindow(g.start, g.clock, g.random, i, j);
    } else {
      IdsDistinctInWindow(g.start, g.clock, g.random, j, i);
    }
  }

  // ---------------------------------------------------------------- calls on a connection

  /** Call c carries the id drawn as number draw(c). */
  ghost predicate CallsDraw(actions: seq<ConnectionRuns.Action>, g: Generator, draw: nat -> nat) {
    forall a :: a in actions && a.Begin? ==> a.command.RequestId() == g.Id(draw(a.call))
  }

  /** Any two calls in flight drew inside one window. */
  ghost predicate CallsInWindow(s: ConnectionRuns.State, draw: nat -> nat) {
    forall c, d :: c in s.calls && d in s.calls && c != d && s.calls[c].InFlight() && s.calls[d].InFlight() ==>
      InWindow(draw(c), draw(d))
  }

  ghost predicate CallsInWindowThroughout(s: ConnectionRuns.State, actions: seq<ConnectionRuns.Action>,
                                          draw: nat -> nat)
    decreases |actions|
  {
    && (actions != [] ==> CallsInWindowThroughout(s, actions[..|actions| - 1], draw))
    && (ConnectionRuns.Run(s, actions).Some? ==> CallsInWindow(ConnectionRuns.Run(s, actions).value, draw))
  }

  ghost predicate Carry(s: ConnectionRuns.State, g: Generator, draw: nat -> nat) {
    forall c :: c in s.calls ==> s.calls[c].id == g.Id(draw(c))
  }

  lemma CallKeepsId(s: ConnectionRuns.State, c: nat, a: ConnectionRuns.CallStep)
    requires ConnectionRuns.Inv(s) && ConnectionRuns.NextCall(s, c, a).Some?
    ensures var t := ConnectionRuns.NextCall(s, c, a).value;
            c in s.calls && c in t.calls && t.calls == s.calls[c := t.calls[c]] && t.calls[c].id == s.calls[c].id
  {
    if !a.Insert? {
      ConnectionRuns.CallEffect(s, c, a);
    }
  }

  lemma StepKeepsCarry(s: ConnectionRuns.State, a: ConnectionRuns.Action, g: Generator, draw: nat -> nat)
    requires ConnectionRuns.Inv(s) && Carry(s, g, draw) && ConnectionRuns.Next(s, a).Some? && CallsDraw([a], g, draw)
    ensures Carry(ConnectionRuns.Next(s, a).value, g, draw)
  {
    match a {
      case Begin(c, command) => assert a in [a];
      case ByCall(c, step) => CallKeepsId(s, c, step);
      case _ => ConnectionRuns.OthersAnswer(s, a);
    }
  }

  lemma {:induction false} RunKeepsCarry(actions: seq<ConnectionRuns.Action>, g: Generator, draw: nat -> nat)
    requires ConnectionRuns.Run(ConnectionRuns.FRESH, actions).Some? && CallsDraw(actions, g, draw)
    ensures Carry(ConnectionRuns.Run(ConnectionRuns.FRESH, actions).value, g, draw)
    decreases |actions|
  {
    if actions != [] {
      var before, last := actions[..|actions| - 1], actions[|actions| - 1];
      RunKeepsCarry(before, g, draw);
      ConnectionGuarantees.FreshInv();
      ConnectionRuns.RunKeepsInv(ConnectionRuns.FRESH, before);
      StepKeepsCarry(ConnectionRuns.Run(ConnectionRuns.FRESH, before).value, last, g, draw);
    }
  }

  /** With ids from the generator, calls in flight have distinct ids as long as no 2^31 ids are drawn while one of them
      is in flight: the hypothesis of the pending map's exactness. */
  lemma {:induction false} ConnectionIdsAreDistinct(actions: seq<ConnectionRuns.Action>, g: Generator, draw: nat -> nat)
    requires CallsDraw(actions, g, draw) && CallsInWindowThroughout(ConnectionRuns.FRESH, actions, draw)
    ensures ConnectionGuarantees.DistinctThroughout(ConnectionRuns.FRESH, actions)
    decreases |actions|
  {
    if actions != [] {
      ConnectionIdsAreDistinct(actions[..|actions| - 1], g, draw);
    }
    if ConnectionRuns.Run(ConnectionRuns.FRESH, actions).Some? {
      RunKeepsCarry(actions, g, draw);
      CarriedAreDistinct(ConnectionRuns.Run(ConnectionRuns.FRESH, actions).value, g, draw);
    }
  }

  lemma CarriedAreDistinct(s: ConnectionRuns.State, g: Generator, draw: nat -> nat)
    requires Carry(s, g, draw) && CallsInWindow(s, draw)
    ensures ConnectionGuarantees.Distinct(s)
  {
    forall c, d | c in s.calls && d in s.calls && c != d && s.calls[c].InFlight() && s.calls[d].InFlight()
      ensures s.calls[c].id != s.calls[d].id
    {
      WindowIsDistinct(g, draw(c), draw(d));
    }
  }

  // ---------------------------------------------------------------- callers of a replica set

  ghost predicate CallersDraw(actions: seq<ReplsetRuns.Action>, g: Generator, draw: nat -> nat) {
    forall a :: a in actions && a.Push? ==> a.id == g.Id(draw(a.c))
  }

  ghost predicate Both(s: ReplsetRuns.State, c: nat, d: nat) {
    c in s.callers && d in s.callers && c != d && ReplsetRuns.Unfinished(s, c) && ReplsetRuns.Unfinished(s, d)
  }

  ghost predicate CallersInWindow(s: ReplsetRuns.State, draw: nat -> nat) {
    forall c, d :: Both(s, c, d) ==> InWindow(draw(c), draw(d))
  }

  ghost predicate CallersInWindowThroughout(s: ReplsetRuns.State, actions: seq<ReplsetRuns.Action>, draw: nat -> nat)
    decreases |actions|
  {
    && (actions != [] ==> CallersInWindowThroughout(s, actions[..|actions| - 1], draw))
    && (ReplsetRuns.Run(s, actions).Some? ==> CallersInWindow(ReplsetRuns.Run(s, actions).value, draw))
  }

  ghost predicate CallersCarry(s: ReplsetRuns.State, g: Generator, draw: nat -> nat) {
    forall c :: c in s.callers ==> s.callers[c].id == g.Id(draw(c))
  }

  lemma StepKeepsCallersCarry(s: ReplsetRuns.State, a: ReplsetRuns.Action, g: Generator, draw: nat -> nat)
    requires CallersCarry(s, g, draw) && ReplsetRuns.Next(s, a).Some? && CallersDraw([a], g, draw)
    ensures CallersCarry(ReplsetRuns.Next(s, a).value, g, draw)
  {
    assert a in [a];
  }

  lemma {:induction false} RunKeepsCallersCarry(n: nat, actions: seq<ReplsetRuns.Action>, g: Generator,
                                                draw: nat -> nat)
    requires ReplsetRuns.Run(ReplsetRuns.Fresh(n), actions).Some? && CallersDraw(actions, g, draw)
    ensures CallersCarry(ReplsetRuns.Run(ReplsetRuns.Fresh(n), actions).value, g, draw)
    decreases |actions|
  {
    if actions != [] {
      var before, last := actions[..|actions| - 1], actions[|actions| - 1];
      RunKeepsCallersCarry(n, before, g, draw);
      StepKeepsCallersCarry(ReplsetRuns.Run(ReplsetRuns.Fresh(n), before).value, last, g, draw);
    }
  }

  /** The same for the callers of a replica set: the hypothesis of the queue's exactness. */
  lemma {:induction false} ReplsetIdsAreDistinct(n: nat, actions: seq<ReplsetRuns.Action>, g: Generator,
                                                 draw: nat -> nat)
    requires CallersDraw(actions, g, draw) && CallersInWindowThroughout(ReplsetRuns.Fresh(n), actions, draw)
    ensures ReplsetRuns.DistinctThroughout(ReplsetRuns.Fresh(n), actions)
    decreases |actions|
  {
    if actions != [] {
      ReplsetIdsAreDistinct(n, actions[..|actions| - 1], g, draw);
    }
    if ReplsetRuns.Run(ReplsetRuns.Fresh(n), actions).Some? {
      RunKeepsCallersCarry(n, actions, g, draw);
      CallersAreDistinct(ReplsetRuns.Run(ReplsetRuns.Fresh(n), actions).value, g, draw);
    }
  }

  lemma CallersAreDistinct(s: ReplsetRuns.State, g: Generator, draw: nat -> nat)
    requires CallersCarry(s, g, draw) && CallersInWindow(s, draw)
    ensures ReplsetRuns.Distinct(s)
  {
    forall c, d | Both(s, c, d)
      ensures s.callers[c].id != s.callers[d].id
    {
      WindowIsDistinct(g, draw(c), draw(d));
    }
  }

  // ---------------------------------------------------------------- reads of a read-write lock

  /** And for the reads of one lock: the hypothesis of everything said about its stack. */
  lemma ReadIdsAreFresh(calls: seq<ReadLocks.Call>, g: Generator, draw: nat -> nat)
    requires forall k :: 0 <= k < |calls| && calls[k].AcquireRead? ==> calls[k].spec.lockId == g.Id(draw(k))
    requires forall k, l :: 0 <= k < l < |calls| && calls[k].AcquireRead? && calls[l].AcquireRead? ==>
               InWindow(draw(k), draw(l))
    ensures ReadLocks.FreshIds(calls) && ReadLocks.OwnIds(ReadLocks.Run(calls).trace)
  {
    forall k, l | 0 <= k < l < |calls| && calls[k].AcquireRead? && calls[l].AcquireRead?
      ensures calls[k].spec.lockId != calls[l].spec.lockId
    {
      WindowIsDistinct(g, draw(k), draw(l));
    }
    ReadLocks.FreshIdsAreOwn(calls);
  }
}
