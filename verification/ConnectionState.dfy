/** The state a connection's threads share and the regions that touch it, each run under one mutex
    (src/blocking/connection.rs; src/aio/connection.rs has the same regions). */
module ConnectionState {
  import opened Bytes
  import opened Protocol
  import opened Commands
  import opened Codec

  /** What can be sent into a waiter's channel. */
  datatype Message = Answer(header: Header, data: Option<seq<u8>>) | Broken | Closed {
    function Result(): Result<CommandResult> {
      match this
      case Answer(header, data) => DecodeResponse(header, data)
      case Broken => Err(Io)
      case Closed => Err(ClientClosed)
    }
  }

  /** The channel of one call: the request id it waits for and everything ever sent into it. */
  datatype Channel = Channel(id: Id16, sent: seq<Message>)

  /** `writer` names the stream, `wire` is what was written to it after the init exchange, and `pending` maps a
      request id to the call that holds the receiving end. */
  datatype Shared = Shared(
    closed: bool, writer: Option<nat>, pending: map<Id16, nat>, channels: map<nat, Channel>, wire: seq<u8>)
  {
    predicate Owns(call: nat) {
      call in channels && channels[call].id in pending && pending[channels[call].id] == call
    }

    predicate Empty(call: nat) {
      call in channels && channels[call].sent == []
    }

    /** Every entry leads to a channel opened for that id and still empty. */
    ghost predicate Valid() {
      forall id :: id in pending ==> Empty(pending[id]) && channels[pending[id]].id == id
    }
  }

  // ---------------------------------------------------------------- the regions

  function InsertPending(s: Shared, call: nat, id: Id16): Shared {
    s.(pending := s.pending[id := call], channels := s.channels[call := Channel(id, [])])
  }

  function RemovePending(s: Shared, id: Id16): Shared {
    s.(pending := s.pending - {id})
  }

  function Received(c: Channel, m: Message): Channel {
    Channel(c.id, c.sent + [m])
  }

  function Send(channels: map<nat, Channel>, call: nat, m: Message): map<nat, Channel> {
    if call in channels then channels[call := Received(channels[call], m)] else channels
  }

  function DeliverTo(s: Shared, key: Id16, m: Message): Shared {
    if key in s.pending then
      s.(pending := s.pending - {key}, channels := Send(s.channels, s.pending[key], m))
    else s
  }

  /** `drain`: every entry is removed and its channel gets the message. */
  function DrainPending(s: Shared, m: Message): Shared {
    s.(pending := map[], channels := DrainedTo(s, m, map[]))
  }

  /** The channels half-way through a drain, with the entries in `left` still to go. */
  function DrainedTo(s: Shared, m: Message, left: map<Id16, nat>): map<nat, Channel> {
    map call | call in s.channels ::
      if s.Owns(call) && s.channels[call].id !in left then Received(s.channels[call], m) else s.channels[call]
  }

  ghost predicate PartOf(left: map<Id16, nat>, whole: map<Id16, nat>) {
    left.Keys <= whole.Keys && forall id :: id in left ==> left[id] == whole[id]
  }

  lemma DrainStep(s: Shared, m: Message, left: map<Id16, nat>, id: Id16)
    requires s.Valid() && PartOf(left, s.pending) && id in left
    ensures Send(DrainedTo(s, m, left), left[id], m) == DrainedTo(s, m, left - {id})
    ensures PartOf(left - {id}, s.pending) && (left - {id}).Keys < left.Keys
  {
    var call := left[id];
    assert s.Empty(s.pending[id]) && s.channels[call].id == id;
    var a, b := Send(DrainedTo(s, m, left), call, m), DrainedTo(s, m, left - {id});
    forall c | c in s.channels
      ensures a[c] == b[c]
    {
      if c != call && s.Owns(c) {
        assert s.channels[c].id != id;
      }
    }
    assert a.Keys == b.Keys;
    assert left.Keys == (left - {id}).Keys + {id};
  }

  function WriteBytes(s: Shared, bytes: seq<u8>): Shared {
    s.(wire := s.wire + bytes)
  }

  /** What the other threads may do to the shared state between two regions of a call: they never touch the
      call's channel but to answer it once, removing its entry as they do, and never enter the call itself. */
  ghost predicate Rely(call: nat, s: Shared, t: Shared) {
    && (s.Valid() ==> t.Valid())
    && (call in s.channels <==> call in t.channels)
    && (call in s.channels ==> s.channels[call].id == t.channels[call].id)
    && (t.Owns(call) ==> s.Owns(call) && s.channels[call] == t.channels[call])
    && (call in s.channels && !s.Owns(call) ==> s.channels[call] == t.channels[call])
    && (call in s.channels ==> t.channels[call].sent == s.channels[call].sent
                               || exists m :: t.channels[call].sent == s.channels[call].sent + [m])
  }

  /** A call between its insertion and its exit. */
  ghost predicate Live(s: Shared, call: nat, id: Id16) {
    s.Valid() && call in s.channels && s.channels[call].id == id && |s.channels[call].sent| <= 1
  }

  lemma OwnerIsEmpty(s: Shared, call: nat)
    requires s.Valid() && s.Owns(call)
    ensures s.channels[call].sent == []
  {
    assert s.Empty(s.pending[s.channels[call].id]);
  }

  lemma StaysLive(s: Shared, t: Shared, call: nat, id: Id16)
    requires Live(s, call, id) && Rely(call, s, t)
    ensures Live(t, call, id)
  {
    if s.Owns(call) {
      OwnerIsEmpty(s, call);
    }
  }

  lemma InsertIsLive(s: Shared, call: nat, id: Id16)
    requires s.Valid() && call !in s.channels
    ensures Live(InsertPending(s, call, id), call, id)
  {
    var t := InsertPending(s, call, id);
    forall key | key in t.pending
      ensures t.Empty(t.pending[key]) && t.channels[t.pending[key]].id == key
    {
      assert key != id ==> s.Empty(s.pending[key]);
    }
  }

  lemma RemoveEnds(s: Shared, call: nat, id: Id16)
    requires Live(s, call, id)
    ensures Live(RemovePending(s, id), call, id) && !RemovePending(s, id).Owns(call)
  {
    var t := RemovePending(s, id);
    forall key | key in t.pending
      ensures t.Empty(t.pending[key]) && t.channels[t.pending[key]].id == key
    {
      assert s.Empty(s.pending[key]);
    }
  }
}
