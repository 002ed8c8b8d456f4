/** What holds over every run of the connection machine. */
module ConnectionGuarantees {
  import opened Bytes
  import opened Protocol
  import opened Commands
  import opened Codec
  import opened ConnectionState
  import opened ConnectionRuns

  lemma FreshInv()
    ensures Inv(FRESH)
  {
  }

  // ---------------------------------------------------------------- right recipient, at most once

  /** Over every run, reconnects and cancellations included and without any assumption on ids: a waiter's channel
      receives at most one message, and an answer it receives came from a header that carries its request id. */
  lemma RightRecipientAtMostOnce(actions: seq<Action>, c: nat)
    requires Run(FRESH, actions).Some? && c in Run(FRESH, actions).value.calls
    ensures var s := Run(FRESH, actions).value;
            var call := s.calls[c];
            && (c in s.sh.channels ==> |s.sh.channels[c].sent| <= 1)
            && (c in s.sh.channels ==> forall m :: m in s.sh.channels[c].sent ==> RightFor(m, call.id))
            && (call.pc.Done? && call.pc.outcome.Replied? ==>
                  c in s.sh.channels && s.sh.channels[c].sent == [call.pc.outcome.message]
                  && RightFor(call.pc.outcome.message, call.id))
  {
    FreshInv();
    RunKeepsInv(FRESH, actions);
    var s := Run(FRESH, actions).value;
    assert CallOk(s, c);
    if c in s.sh.channels {
      assert ChannelOk(s, c);
    }
  }

  /** A decoded result therefore names the request it is given to. */
  lemma RightResult(m: Message, id: Id16)
    requires RightFor(m, id) && m.Answer? && m.Result().Ok?
    ensures m.Result().value.RequestId() == id
  {
    RoutingKeyIsHeaderId(m.header, m.data);
  }

  // ---------------------------------------------------------------- the other threads keep the rely condition

  /** Every step of another thread is one the code of a call is proved to tolerate. */
  lemma RelyHolds(s: State, a: Action, c: nat)
    requires Inv(s) && Next(s, a).Some?
    requires !(a.ByCall? && a.call == c)
    ensures Rely(c, s.sh, Next(s, a).value.sh)
  {
    var t := Next(s, a).value;
    StepKeepsInv(s, a);
    match a {
      case Begin(_, _) =>
      case ByCall(d, step) =>
        if step.Insert? {
          InsertRely(s.sh, d, s.calls[d].id, c);
        } else {
          CallEffect(s, d, step);
        }
      case _ =>
        OthersAnswer(s, a);
        AnswersRely(s.sh, t.sh, c);
    }
  }

  lemma RelyIsReflexive(s: Shared, c: nat)
    ensures Rely(c, s, s)
  {
  }

  lemma RelyIsTransitive(s: Shared, t: Shared, u: Shared, c: nat)
    requires s.Valid() && Rely(c, s, t) && Rely(c, t, u)
    ensures Rely(c, s, u)
  {
  }

  /** And so is any number of such steps, which is what runs between two regions of a call. */
  lemma {:induction false} RelyHoldsOverRuns(s: State, actions: seq<Action>, c: nat)
    requires Inv(s) && Run(s, actions).Some?
    requires forall a :: a in actions ==> !(a.ByCall? && a.call == c)
    ensures Rely(c, s.sh, Run(s, actions).value.sh)
    decreases |actions|
  {
    if actions == [] {
      RelyIsReflexive(s.sh, c);
    } else {
      var before, last := actions[..|actions| - 1], actions[|actions| - 1];
      var t := Run(s, before).value;
      RelyHoldsOverRuns(s, before, c);
      RunKeepsInv(s, before);
      RelyHolds(t, last, c);
      RelyIsTransitive(s.sh, t.sh, Run(s, actions).value.sh, c);
    }
  }

  lemma AnswersRely(s: Shared, t: Shared, c: nat)
    requires Answers(s, t)
    ensures Rely(c, s, t)
  {
    if c in s.channels {
      assert Answered(s, t, c);
    }
  }

  lemma InsertRely(s: Shared, d: nat, id: Id16, c: nat)
    requires c != d && InsertPending(s, d, id).Valid()
    ensures Rely(c, s, InsertPending(s, d, id))
  {
  }

  // ---------------------------------------------------------------- the pending map is exact

  /** The calls in flight have distinct request ids. */
  ghost predicate Distinct(s: State) {
    forall c, d :: c in s.calls && d in s.calls && c != d && s.calls[c].InFlight() && s.calls[d].InFlight() ==>
      s.calls[c].id != s.calls[d].id
  }

  ghost predicate DistinctThroughout(s: State, actions: seq<Action>)
    decreases |actions|
  {
    && (actions != [] ==> DistinctThroughout(s, actions[..|actions| - 1]))
    && (Run(s, actions).Some? ==> Distinct(Run(s, actions).value))
  }

  /** A call owns an entry exactly from its insertion until it leaves or is answered. */
  ghost predicate Exact(s: State) {
    forall c :: c in s.sh.channels ==>
      (s.sh.Owns(c) <==> c in s.calls && s.calls[c].InFlight() && s.sh.Empty(c))
  }

  lemma AnswersKeepExact(s: State, t: State)
    requires Exact(s) && Answers(s.sh, t.sh) && t.calls == s.calls
    ensures Exact(t)
  {
    forall c | c in t.sh.channels
      ensures t.sh.Owns(c) <==> c in t.calls && t.calls[c].InFlight() && t.sh.Empty(c)
    {
      assert Answered(s.sh, t.sh, c);
    }
  }

  lemma StayKeepsExact(s: State, t: State, c: nat)
    requires Exact(s) && Stays(s, t, c)
    ensures Exact(t)
  {
    forall d | d in t.sh.channels
      ensures t.sh.Owns(d) <==> d in t.calls && t.calls[d].InFlight() && t.sh.Empty(d)
    {
      assert s.sh.Owns(d) <==> t.sh.Owns(d);
    }
  }

  lemma OwnerMeansId(s: State, d: nat)
    requires Inv(s) && d in s.sh.channels
    ensures d in s.calls && s.sh.channels[d].id == s.calls[d].id
  {
    assert ChannelOk(s, d);
  }

  lemma LeaveKeepsExact(s: State, t: State, c: nat)
    requires Inv(s) && Exact(s) && Distinct(s) && Leaves(s, t, c, false)
    ensures Exact(t)
  {
    forall d | d in t.sh.channels
      ensures t.sh.Owns(d) <==> d in t.calls && t.calls[d].InFlight() && t.sh.Empty(d)
    {
      if d == c {
        OwnerMeansId(s, c);
      } else {
        OthersUnmoved(s, t, c, d);
      }
    }
  }

  lemma OthersUnmoved(s: State, t: State, c: nat, d: nat)
    requires Inv(s) && Exact(s) && Distinct(s) && Leaves(s, t, c, false)
    requires c != d && d in s.sh.channels
    ensures t.sh.Owns(d) <==> s.sh.Owns(d)
    ensures d in t.calls && t.calls[d] == s.calls[d]
  {
    OwnerMeansId(s, d);
    assert s.sh.Owns(d) <==> s.calls[d].InFlight() && s.sh.Empty(d);
    assert s.calls[d].InFlight() ==> s.calls[d].id != s.calls[c].id;
  }

  lemma InsertKeepsExact(s: State, c: nat)
    requires Inv(s) && Exact(s) && NextCall(s, c, Insert).Some? && Distinct(NextCall(s, c, Insert).value)
    ensures Exact(NextCall(s, c, Insert).value)
  {
    var t := NextCall(s, c, Insert).value;
    assert c !in s.sh.channels;
    forall d | d in t.sh.channels
      ensures t.sh.Owns(d) <==> d in t.calls && t.calls[d].InFlight() && t.sh.Empty(d)
    {
      if d != c {
        assert ChannelOk(s, d);
        assert s.sh.Owns(d) <==> s.calls[d].InFlight() && s.sh.Empty(d);
        assert t.calls[d] == s.calls[d] && t.calls[c].InFlight();
        assert t.calls[d].InFlight() ==> t.calls[d].id != t.calls[c].id;
      }
    }
  }

  lemma BeginKeepsExact(s: State, c: nat, command: Command)
    requires Inv(s) && Exact(s) && NextBegin(s, c, command).Some?
    ensures Exact(NextBegin(s, c, command).value)
  {
    var t := NextBegin(s, c, command).value;
    forall d | d in t.sh.channels
      ensures t.sh.Owns(d) <==> d in t.calls && t.calls[d].InFlight() && t.sh.Empty(d)
    {
      assert ChannelOk(s, d);
    }
  }

  lemma StepKeepsExact(s: State, a: Action)
    requires Inv(s) && Exact(s) && Distinct(s) && Next(s, a).Some? && Distinct(Next(s, a).value)
    requires !Contended(a)
    ensures Exact(Next(s, a).value)
  {
    var t := Next(s, a).value;
    match a {
      case Begin(c, command) => BeginKeepsExact(s, c, command);
      case ByCall(c, step) =>
        if step.Insert? {
          InsertKeepsExact(s, c);
        } else {
          CallEffect(s, c, step);
          if Stays(s, t, c) {
            StayKeepsExact(s, t, c);
          } else {
            LeaveKeepsExact(s, t, c);
          }
        }
      case _ =>
        OthersAnswer(s, a);
        AnswersKeepExact(s, t);
    }
  }

  lemma {:induction false} RunIsExact(s: State, actions: seq<Action>)
    requires Inv(s) && Exact(s) && Run(s, actions).Some? && DistinctThroughout(s, actions)
    requires forall a :: a in actions ==> !Contended(a)
    ensures Exact(Run(s, actions).value) && Inv(Run(s, actions).value)
    decreases |actions|
  {
    if actions != [] {
      var before := actions[..|actions| - 1];
      RunIsExact(s, before);
      StepKeepsExact(Run(s, before).value, actions[|actions| - 1]);
      StepKeepsInv(Run(s, before).value, actions[|actions| - 1]);
      assert DistinctThroughout(s, before);
    }
  }

  /** While the ids in flight are distinct, the map holds exactly the calls between insertion and exit that have
      not been answered, each under its own id. */
  lemma PendingMapExact(actions: seq<Action>, id: Id16, c: nat)
    requires Run(FRESH, actions).Some? && DistinctThroughout(FRESH, actions)
    requires forall a :: a in actions ==> !Contended(a)
    ensures var s := Run(FRESH, actions).value;
            id in s.sh.pending && s.sh.pending[id] == c <==>
            c in s.calls && s.calls[c].InFlight() && s.sh.Empty(c) && s.calls[c].id == id
  {
    FreshInv();
    RunIsExact(FRESH, actions);
    ExactMeansPending(Run(FRESH, actions).value, id, c);
  }

  lemma ExactMeansPending(s: State, id: Id16, c: nat)
    requires Inv(s) && Exact(s)
    ensures id in s.sh.pending && s.sh.pending[id] == c <==>
            c in s.calls && s.calls[c].InFlight() && s.sh.Empty(c) && s.calls[c].id == id
  {
    if c in s.calls {
      assert CallOk(s, c);
    }
    if c in s.sh.channels {
      assert ChannelOk(s, c);
    }
  }

  /** On every exit the call's id is absent: reply, no writer, write error, timeout and cancellation alike. */
  lemma ExitRemovesEntry(actions: seq<Action>, c: nat, step: CallStep, s: State, t: State)
    requires c in s.calls && c in t.calls && s.calls[c].InFlight() && !t.calls[c].InFlight()
    requires Run(FRESH, actions) == Some(s) && DistinctThroughout(FRESH, actions)
    requires forall a :: a in actions ==> !Contended(a)
    requires NextCall(s, c, step) == Some(t) && !Contended(ByCall(c, step))
    ensures s.calls[c].id !in t.sh.pending
  {
    FreshInv();
    RunIsExact(FRESH, actions);
    CallEffect(s, c, step);
    LeaveRemovesEntry(s, t, c);
  }

  lemma LeaveRemovesEntry(s: State, t: State, c: nat)
    requires Inv(s) && Exact(s) && Distinct(s) && Leaves(s, t, c, false)
    ensures s.calls[c].id !in t.sh.pending
  {
    var id := s.calls[c].id;
    assert CallOk(s, c) && ChannelOk(s, c);
    if id in s.sh.pending {
      ExactMeansPending(s, id, s.sh.pending[id]);
    }
  }

  /** The receiver's Disconnected branch is dead while the ids in flight are distinct. */
  lemma NeverDisconnected(actions: seq<Action>, c: nat)
    requires Run(FRESH, actions).Some? && DistinctThroughout(FRESH, actions)
    requires forall a :: a in actions ==> !Contended(a)
    ensures NextCall(Run(FRESH, actions).value, c, Disconnect).None?
  {
    FreshInv();
    RunIsExact(FRESH, actions);
    var s := Run(FRESH, actions).value;
    if c in s.calls && s.sh.Empty(c) {
      assert ChannelOk(s, c);
      assert s.sh.Owns(c) <==> s.calls[c].InFlight() && s.sh.Empty(c);
    }
  }

  predicate Cancels(a: CallStep) {
    a.Cancel? || a.CancelWrite?
  }

  /** A cancelled call, dropped at an await or inside its write, leaves its entry behind exactly when its `try_lock`
      lost the race while it still owned one. */
  lemma CancelLeavesEntryExactly(actions: seq<Action>, c: nat, a: CallStep, s: State, t: State)
    requires c in s.calls && s.calls[c].InFlight()
    requires Run(FRESH, actions) == Some(s) && DistinctThroughout(FRESH, actions)
    requires forall b :: b in actions ==> !Contended(b)
    requires Cancels(a) && NextCall(s, c, a) == Some(t)
    ensures s.calls[c].id in t.sh.pending <==> a.contended && s.sh.Empty(c)
  {
    FreshInv();
    RunIsExact(FRESH, actions);
    DropLeavesEntryExactly(s, c, a.contended);
    if a.Cancel? {
      CancelIsDrop(s, c, a.contended, t);
    } else {
      CancelWriteIsDrop(s, c, a.written, a.contended, t);
    }
  }

  lemma CancelWriteIsDrop(s: State, c: nat, written: nat, contended: bool, t: State)
    requires NextCall(s, c, CancelWrite(written, contended)) == Some(t)
    ensures t.sh.pending == Drop(s, c, contended).sh.pending
  {
  }

  lemma CancelIsDrop(s: State, c: nat, contended: bool, t: State)
    requires c in s.calls && s.calls[c].InFlight() && NextCall(s, c, Cancel(contended)) == Some(t)
    ensures t == Drop(s, c, contended)
  {
  }

  lemma DropLeavesEntryExactly(s: State, c: nat, contended: bool)
    requires Inv(s) && Exact(s) && Distinct(s) && c in s.calls && s.calls[c].InFlight()
    ensures s.calls[c].id in Drop(s, c, contended).sh.pending <==> contended && s.sh.Empty(c)
  {
    var id := s.calls[c].id;
    if contended {
      ExactMeansPending(s, id, c);
      if id in s.sh.pending {
        ExactMeansPending(s, id, s.sh.pending[id]);
      }
    } else {
      DropEffect(s, c, false);
      LeaveRemovesEntry(s, Drop(s, c, false), c);
    }
  }
}
