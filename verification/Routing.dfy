/** The reader's deliveries seen from the pending map and the waiters' channels. */
module Routing {
  import opened Bytes
  import opened Protocol
  import opened Codec
  import opened ConnectionState
  import ResponseStream
  import ConnectionRuns

  function MessageOf(d: ResponseStream.Delivery): Message {
    Message.Answer(d.header, d.data)
  }

  /** The reader delivers one frame after the other. */
  function DeliverAll(s: Shared, ds: seq<ResponseStream.Delivery>): Shared
    decreases |ds|
  {
    if ds == [] then s else DeliverAll(DeliverTo(s, ds[0].Key(), MessageOf(ds[0])), ds[1..])
  }

  /** What the given requests receive. */
  function Routed(waiting: set<Id16>, ds: seq<ResponseStream.Delivery>): map<Id16, Result<CommandResult>> {
    ResponseStream.Route(waiting, ResponseStream.Answers(ds))
  }

  lemma RoutedStep(waiting: set<Id16>, ds: seq<ResponseStream.Delivery>)
    requires ds != []
    ensures var key, result, later := ds[0].Key(), MessageOf(ds[0]).Result(), ds[1..];
            Routed(waiting, ds)
            == (if key in waiting then Routed(waiting - {key}, later)[key := result] else Routed(waiting, later))
  {
    assert ResponseStream.Answers(ds)[1..] == ResponseStream.Answers(ds[1..]);
  }

  lemma DeliverStep(s: Shared, key: Id16, m: Message)
    requires s.Valid()
    ensures var t := DeliverTo(s, key, m);
            && t.Valid() && t.pending == s.pending - {key} && t.channels.Keys == s.channels.Keys
            && (forall c :: c in s.channels && !(key in s.pending && s.pending[key] == c) ==>
                t.channels[c] == s.channels[c])
            && (key in s.pending ==> s.pending[key] in t.channels && !t.Owns(s.pending[key])
                                     && t.channels[s.pending[key]].sent == [m])
  {
    if key in s.pending {
      assert s.Empty(s.pending[key]);
    }
    forall id | id in DeliverTo(s, key, m).pending
      ensures DeliverTo(s, key, m).Empty(s.pending[id]) && DeliverTo(s, key, m).channels[s.pending[id]].id == id
    {
      assert s.Empty(s.pending[id]) && s.channels[s.pending[id]].id == id;
    }
  }

  /** Nothing is ever sent to a call that owns no entry. */
  lemma {:induction false} OthersGetNothing(s: Shared, ds: seq<ResponseStream.Delivery>, c: nat)
    requires s.Valid() && c in s.channels && !s.Owns(c)
    ensures c in DeliverAll(s, ds).channels && DeliverAll(s, ds).channels[c] == s.channels[c]
    decreases |ds|
  {
    if ds != [] {
      var key, m := ds[0].Key(), MessageOf(ds[0]);
      DeliverStep(s, key, m);
      NotTheOwner(s, key, c);
      OthersGetNothing(DeliverTo(s, key, m), ds[1..], c);
    }
  }

  lemma NotTheOwner(s: Shared, key: Id16, c: nat)
    requires s.Valid() && c in s.channels && !s.Owns(c)
    ensures !(key in s.pending && s.pending[key] == c)
  {
    if key in s.pending {
      assert s.Empty(s.pending[key]) && s.channels[s.pending[key]].id == key;
    }
  }

  /** Delivering any list of frames fills the channels as routing says: a waiter gets the one result routed to its id,
      and its entry is gone; one that no frame names gets nothing and keeps its entry. */
  lemma {:induction false} DeliveryIsRouting(s: Shared, ds: seq<ResponseStream.Delivery>, id: Id16)
    requires s.Valid() && id in s.pending
    ensures var t, routed, c := DeliverAll(s, ds), Routed(s.pending.Keys, ds), s.pending[id];
            && c in t.channels
            && (id in routed ==>
                id !in t.pending && |t.channels[c].sent| == 1 && t.channels[c].sent[0].Result() == routed[id])
            && (id !in routed ==> id in t.pending && t.pending[id] == c && t.channels[c].sent == [])
    decreases |ds|
  {
    var c := s.pending[id];
    assert s.Empty(c) && s.channels[c].id == id;
    if ds == [] {
      assert ResponseStream.Answers(ds) == [];
    } else {
      var key, m := ds[0].Key(), MessageOf(ds[0]);
      var t := DeliverTo(s, key, m);
      DeliverStep(s, key, m);
      RoutedStep(s.pending.Keys, ds);
      assert t.pending.Keys == s.pending.Keys - {key};
      assert key !in s.pending ==> t.pending == s.pending;
      if key == id {
        OthersGetNothing(t, ds[1..], c);
        NeverComesBack(t, ds[1..], id);
      } else {
        DeliveryIsRouting(t, ds[1..], id);
      }
    }
  }

  lemma {:induction false} NeverComesBack(s: Shared, ds: seq<ResponseStream.Delivery>, id: Id16)
    requires s.Valid() && id !in s.pending
    ensures id !in DeliverAll(s, ds).pending
    decreases |ds|
  {
    if ds != [] {
      DeliverStep(s, ds[0].Key(), MessageOf(ds[0]));
      NeverComesBack(DeliverTo(s, ds[0].Key(), MessageOf(ds[0])), ds[1..], id);
    }
  }

  function Results(sent: seq<Message>): seq<Result<CommandResult>> {
    seq(|sent|, i requires 0 <= i < |sent| => sent[i].Result())
  }

  /** With distinct ids every order of the response frames leaves every waiter with the same results, and the map with
      the same entries. */
  lemma WaitersSeeNoOrder(s: Shared, ms: seq<ResponseStream.Response>, ns: seq<ResponseStream.Response>, id: Id16)
    requires s.Valid() && id in s.pending
    requires forall m :: m in ms ==> m.Sendable()
    requires multiset(ms) == multiset(ns)
    requires ResponseStream.DistinctIds(ResponseStream.Answers(ResponseStream.Deliveries(ms)))
    ensures SameFor(DeliverAll(s, ReadFrames(ms)), DeliverAll(s, ReadFrames(ns)), s.pending[id], id)
  {
    ResponseStream.ArrivalOrderIrrelevant(s.pending.Keys, ms, ns);
    SameRouted(s, ReadFrames(ms), ReadFrames(ns), id);
  }

  /** The waiter got the same results, and the id is waited for in both states or in neither. */
  ghost predicate SameFor(t: Shared, u: Shared, c: nat, id: Id16) {
    && c in t.channels && c in u.channels && Results(t.channels[c].sent) == Results(u.channels[c].sent)
    && (id in t.pending <==> id in u.pending)
  }

  lemma SameRouted(s: Shared, ds: seq<ResponseStream.Delivery>, es: seq<ResponseStream.Delivery>, id: Id16)
    requires s.Valid() && id in s.pending && Routed(s.pending.Keys, ds) == Routed(s.pending.Keys, es)
    ensures SameFor(DeliverAll(s, ds), DeliverAll(s, es), s.pending[id], id)
  {
    DeliveryIsRouting(s, ds, id);
    DeliveryIsRouting(s, es, id);
  }

  /** What the reader makes of the frames of the given responses. */
  function ReadFrames(ms: seq<ResponseStream.Response>): seq<ResponseStream.Delivery> {
    ResponseStream.ReadAll(Concat(ResponseStream.Wires(ms))).deliveries
  }

  // ---------------------------------------------------------------- the machine's reader

  /** The data of a delivery is there exactly when its header announces it. */
  predicate Announced(d: ResponseStream.Delivery) {
    d.data.Some? <==> ResponseHasExtraData(d.header)
  }

  lemma {:induction false} ReaderAnnounces(stream: seq<u8>)
    ensures forall d :: d in ResponseStream.ReadAll(stream).deliveries ==> Announced(d)
    decreases |stream|
  {
    match ResponseStream.ReadOne(stream)
    case Stop(_) =>
    case Got(_, rest) => ReaderAnnounces(rest);
  }

  function Frames(r: nat, ds: seq<ResponseStream.Delivery>): (actions: seq<ConnectionRuns.Action>)
    ensures |actions| == |ds|
  {
    seq(|ds|, i requires 0 <= i < |ds| =>
      ConnectionRuns.ByReader(r, ConnectionRuns.Frame(ds[i].header, ds[i].data)))
  }

  /** The machine's reader, undisturbed, does to the shared state what delivering the frames does. */
  lemma {:induction false} FramesAreDeliveries(s: ConnectionRuns.State, r: nat, ds: seq<ResponseStream.Delivery>)
    requires r in s.readers && s.readers[r].Reading? && s.pendingLock.None?
    requires forall d :: d in ds ==> Announced(d)
    ensures ConnectionRuns.Run(s, Frames(r, ds)) == Some(s.(sh := DeliverAll(s.sh, ds)))
    decreases |ds|
  {
    if ds != [] {
      var first := Frames(r, ds)[0];
      var t := s.(sh := DeliverTo(s.sh, ds[0].Key(), MessageOf(ds[0])));
      assert Announced(ds[0]);
      assert ConnectionRuns.Next(s, first) == Some(t);
      FramesAreDeliveries(t, r, ds[1..]);
      ConnectionRuns.RunStep(s, [], first);
      ConnectionRuns.RunOn(s, [] + [first], Frames(r, ds[1..]));
      assert Frames(r, ds) == [] + [first] + Frames(r, ds[1..]);
    }
  }
}
