/** The reader's loop over the response stream (src/blocking/connection.rs): framing, decoding and routing. */
module ResponseStream {
  import opened Bytes
  import opened Protocol
  import opened Codec
  import opened LockResultData

  /** What the reader hands over for one frame: the header and, when flagged, the stored data. */
  datatype Delivery = Delivery(header: Header, data: Option<seq<u8>>) {
    function Key(): Id16 {
      RoutingKey(header, data)
    }

    function Decoded(): Result<CommandResult> {
      DecodeResponse(header, data)
    }
  }

  datatype End = HeaderFailed | ExtraDataFailed

  datatype Step = Got(delivery: Delivery, rest: seq<u8>) | Stop(end: End)

  datatype Reading = Reading(deliveries: seq<Delivery>, end: End)

  /** One turn of the loop; the stream failing and the stream ending are the same to `read_exact`. */
  function ReadOne(stream: seq<u8>): (s: Step)
    ensures s.Got? ==> |s.rest| < |stream|
  {
    if |stream| < 64 then Stop(HeaderFailed) else
    var header: Header := stream[..64];
    if !ResponseHasExtraData(header) then Got(Delivery(header, None), stream[64..]) else
    match ReadExtraData(stream[64..])
    case None => Stop(ExtraDataFailed)
    case Some((data, rest)) => Got(Delivery(header, Some(data)), rest)
  }

  /** `read_extra_data`: the length prefix is consumed and stays zero in the stored bytes. */
  function ReadExtraData(stream: seq<u8>): (r: Option<(seq<u8>, seq<u8>)>)
    ensures r.Some? ==> |r.value.1| <= |stream|
  {
    if |stream| < 4 then None else
    var length := ReadU32(stream[..4]);
    if 4 + length > |stream| then None else
    Some((Stored(stream[4..4 + length]), stream[4 + length..]))
  }

  function ReadAll(stream: seq<u8>): Reading
    decreases |stream|
  {
    match ReadOne(stream)
    case Stop(end) => Reading([], end)
    case Got(delivery, rest) =>
      var later := ReadAll(rest);
      Reading([delivery] + later.deliveries, later.end)
  }

  /** The reader thread's loop, with what it hands over collected in order. */
  method ReadLoop(stream: seq<u8>) returns (deliveries: seq<Delivery>, end: End)
    ensures Reading(deliveries, end) == ReadAll(stream)
  {
    deliveries := [];
    var rest := stream;
    while true
      invariant ReadAll(stream) == After(deliveries, ReadAll(rest))
      decreases |rest|
    {
      if |rest| < 64 {
        end := HeaderFailed;
        assert deliveries + [] == deliveries;
        return;
      }
      var header: Header := rest[..64];
      var data: Option<seq<u8>> := None;
      var after := rest[64..];
      if ResponseHasExtraData(header) {
        var extra := ReadExtraData(after);
        if extra.None? {
          end := ExtraDataFailed;
          assert deliveries + [] == deliveries;
          return;
        }
        data, after := Some(extra.value.0), extra.value.1;
      }
      assert ReadOne(rest) == Got(Delivery(header, data), after);
      AfterFacts(deliveries, Delivery(header, data), ReadAll(after));
      deliveries := deliveries + [Delivery(header, data)];
      rest := after;
    }
  }

  ghost function After(before: seq<Delivery>, later: Reading): Reading {
    Reading(before + later.deliveries, later.end)
  }

  lemma AfterFacts(before: seq<Delivery>, delivery: Delivery, later: Reading)
    ensures After([], later) == later
    ensures After(before, After([delivery], later)) == After(before + [delivery], later)
  {
    assert [] + later.deliveries == later.deliveries;
    assert before + ([delivery] + later.deliveries) == before + [delivery] + later.deliveries;
  }

  // ---------------------------------------------------------------- what a server sends

  /** Any header at all; the payload goes out only behind a header that announces it. */
  datatype Response = Response(header: Header, payload: seq<u8>) {
    function Wire(): seq<u8> {
      header + if ResponseHasExtraData(header) then Chunk(payload) else []
    }

    function Delivered(): Delivery {
      Delivery(header, if ResponseHasExtraData(header) then Some(Stored(payload)) else None)
    }

    ghost predicate Sendable() {
      |payload| <= U32_MAX
    }
  }

  function Wires(ms: seq<Response>): (frames: seq<seq<u8>>)
    ensures |frames| == |ms| && forall i :: 0 <= i < |ms| ==> frames[i] == ms[i].Wire()
  {
    seq(|ms|, i requires 0 <= i < |ms| => ms[i].Wire())
  }

  function Deliveries(ms: seq<Response>): (ds: seq<Delivery>)
    ensures |ds| == |ms| && forall i :: 0 <= i < |ms| ==> ds[i] == ms[i].Delivered()
  {
    seq(|ms|, i requires 0 <= i < |ms| => ms[i].Delivered())
  }

  lemma ReadFrame(m: Response, rest: seq<u8>)
    requires m.Sendable()
    ensures ReadOne(m.Wire() + rest) == Got(m.Delivered(), rest)
  {
    var stream := m.Wire() + rest;
    assert stream[..64] == m.header;
    if ResponseHasExtraData(m.header) {
      assert stream[64..] == Chunk(m.payload) + rest;
      ChunkShape(m.payload, rest);
    } else {
      assert stream[64..] == rest;
    }
  }

  function EndAt(k: nat): End {
    if k < 64 then HeaderFailed else ExtraDataFailed
  }

  /** A frame cut anywhere before its last byte yields nothing. */
  lemma ReadCutFrame(m: Response, k: nat)
    requires m.Sendable() && k < |m.Wire()|
    ensures ReadOne(m.Wire()[..k]) == Stop(EndAt(k))
  {
    if 64 <= k {
      var cut := m.Wire()[..k];
      assert cut[..64] == m.header && ResponseHasExtraData(m.header);
      assert cut[64..] == Chunk(m.payload)[..k - 64];
      if 68 <= k {
        ReadBackU32(|m.payload|);
        assert cut[64..][..4] == LittleEndian(|m.payload|, 4);
      }
    }
  }

  /** Whole frames followed by the first k bytes of another: exactly the whole ones are delivered, in order,
      whatever the headers and payloads are. */
  lemma {:induction false} Reassembly(ms: seq<Response>, next: Response, k: nat)
    requires forall i :: 0 <= i < |ms| ==> ms[i].Sendable()
    requires next.Sendable() && k < |next.Wire()|
    ensures ReadAll(Concat(Wires(ms)) + next.Wire()[..k]) == Reading(Deliveries(ms), EndAt(k))
  {
    var cut := next.Wire()[..k];
    if ms == [] {
      assert Concat(Wires(ms)) + cut == cut;
      ReadCutFrame(next, k);
    } else {
      var rest := Concat(Wires(ms[1..])) + cut;
      assert Wires(ms)[1..] == Wires(ms[1..]);
      assert Concat(Wires(ms)) + cut == ms[0].Wire() + rest;
      ReadFrame(ms[0], rest);
      Reassembly(ms[1..], next, k);
      assert Deliveries(ms) == [ms[0].Delivered()] + Deliveries(ms[1..]);
    }
  }

  /** The number of frames that end within the first k bytes. */
  function WholeFrames(ms: seq<Response>, k: nat): (n: nat)
    ensures n <= |ms|
  {
    if ms == [] || k < |ms[0].Wire()| then 0 else 1 + WholeFrames(ms[1..], k - |ms[0].Wire()|)
  }

  lemma {:induction false} WholeFramesExactly(ms: seq<Response>, k: nat)
    ensures var n := WholeFrames(ms, k);
            && |Concat(Wires(ms[..n]))| <= k
            && (n < |ms| ==> k < |Concat(Wires(ms[..n + 1]))|)
  {
    if ms != [] {
      WiresStep(ms, 1);
      if k >= |ms[0].Wire()| {
        var n := WholeFrames(ms[1..], k - |ms[0].Wire()|);
        WholeFramesExactly(ms[1..], k - |ms[0].Wire()|);
        WiresStep(ms, n + 1);
        if n + 1 < |ms| {
          WiresStep(ms, n + 2);
        }
      }
    }
  }

  lemma WiresStep(ms: seq<Response>, n: nat)
    requires 1 <= n <= |ms|
    ensures Concat(Wires(ms[..n])) == ms[0].Wire() + Concat(Wires(ms[1..][..n - 1]))
  {
    assert Wires(ms[..n])[1..] == Wires(ms[1..][..n - 1]);
  }

  /** The stream cut at any byte: exactly the frames that end at or before the cut are delivered. */
  lemma {:induction false} TruncatedStream(ms: seq<Response>, k: nat)
    requires forall i :: 0 <= i < |ms| ==> ms[i].Sendable()
    requires k <= |Concat(Wires(ms))|
    ensures ReadAll(Concat(Wires(ms))[..k]).deliveries == Deliveries(ms[..WholeFrames(ms, k)])
  {
    if ms != [] {
      var first, rest := ms[0].Wire(), Concat(Wires(ms[1..]));
      assert Wires(ms)[1..] == Wires(ms[1..]);
      if k < |first| {
        assert (first + rest)[..k] == first[..k];
        ReadCutFrame(ms[0], k);
      } else {
        var k' := k - |first|;
        var n := WholeFrames(ms[1..], k');
        assert (first + rest)[..k] == first + rest[..k'];
        ReadFrame(ms[0], rest[..k']);
        TruncatedStream(ms[1..], k');
        assert Deliveries(ms[..n + 1]) == [ms[0].Delivered()] + Deliveries(ms[1..][..n]);
      }
    }
  }

  // ---------------------------------------------------------------- frames as a server prints them

  /** A result as a server sends it: header bytes it does not use, and the payload that goes with a flagged lock
      result. */
  datatype Printed = Printed(result: CommandResult, padding: seq<u8>, payload: seq<u8>) {
    /** The result of a lock or an unlock, of init or of ping, with a payload that fits. */
    ghost predicate Sound() {
      && |payload| <= U32_MAX && |padding| == PaddingLength(result)
      && (result.LockResult? ==> result.lock.commandType == 0x01 || result.lock.commandType == 0x02)
    }

    /** Data follows the results of locks and unlocks that raise bit 0x20 of their flag byte, and no others. */
    ghost predicate CarriesData() {
      result.LockResult? && (result.lock.flag / 0x20) % 2 == 1
    }

    ghost function Bytes(): seq<u8>
      requires Sound()
    {
      ResponseHeader(result, padding) + if CarriesData() then LittleEndian(|payload|, 4) + payload else []
    }

    /** What the client should see: the result, with four zero bytes and the payload as its data. */
    ghost function Seen(): CommandResult {
      if !result.LockResult? then result
      else LockResult(result.lock.(data := if CarriesData() then Some([0, 0, 0, 0] + payload) else None))
    }

    function ToResponse(): Response
      requires |padding| == PaddingLength(result)
    {
      Response(ResponseHeader(result, padding), payload)
    }
  }

  lemma PrintedIsResponse(p: Printed)
    requires p.Sound()
    ensures p.ToResponse().Sendable() && p.ToResponse().Wire() == p.Bytes()
    ensures p.ToResponse().Delivered().Decoded() == Ok(p.Seen())
  {
    var h := ResponseHeader(p.result, p.padding);
    assert h[..3] == [MAGIC, VERSION, ResponseType(p.result)] && h[2] == h[..3][2];
    if p.result.LockResult? {
      LockBodyFields(p.result.lock, p.padding);
    }
    SeenHeader(p);
    DecodePrinted(p.Seen(), p.padding);
  }

  /** The header does not depend on the data. */
  lemma SeenHeader(p: Printed)
    requires p.Sound()
    ensures PaddingLength(p.Seen()) == PaddingLength(p.result)
    ensures ResponseHeader(p.Seen(), p.padding) == ResponseHeader(p.result, p.padding)
    ensures Printable(p.Seen())
  {
    if p.result.LockResult? {
      assert Body(p.Seen()) == Body(p.result);
    }
  }

  /** One printed result is read as one delivery with its data, and the bytes after it are left. */
  lemma ReadsOnePrinted(p: Printed, rest: seq<u8>)
    requires p.Sound()
    ensures var s := ReadOne(p.Bytes() + rest);
            s.Got? && s.rest == rest && s.delivery.header == ResponseHeader(p.result, p.padding)
            && s.delivery.data == (if p.CarriesData() then Some([0, 0, 0, 0] + p.payload) else None)
            && s.delivery.Decoded() == Ok(p.Seen())
  {
    PrintedIsResponse(p);
    ReadFrame(p.ToResponse(), rest);
    if p.result.LockResult? {
      LockBodyFields(p.result.lock, p.padding);
    }
    assert ResponseHeader(p.result, p.padding)[..3] == [MAGIC, VERSION, ResponseType(p.result)];
  }

  ghost function PrintedBytes(ps: seq<Printed>): seq<seq<u8>>
    requires forall i :: 0 <= i < |ps| ==> ps[i].Sound()
  {
    seq(|ps|, i requires 0 <= i < |ps| => ps[i].Bytes())
  }

  /** A stream of printed results, cut anywhere in the next one, is read back result by result, data and all. */
  lemma PrintedStream(ps: seq<Printed>, next: Printed, k: nat)
    requires next.Sound() && k < |next.Bytes()| && forall i :: 0 <= i < |ps| ==> ps[i].Sound()
    ensures var ds := ReadAll(Concat(PrintedBytes(ps)) + next.Bytes()[..k]).deliveries;
            |ds| == |ps| && forall i :: 0 <= i < |ps| ==> ds[i].Decoded() == Ok(ps[i].Seen())
  {
    var ms := seq(|ps|, i requires 0 <= i < |ps| => ps[i].ToResponse());
    forall i | 0 <= i < |ps|
      ensures ms[i].Sendable() && ms[i].Wire() == ps[i].Bytes() && ms[i].Delivered().Decoded() == Ok(ps[i].Seen())
    {
      PrintedIsResponse(ps[i]);
    }
    PrintedIsResponse(next);
    assert Wires(ms) == PrintedBytes(ps);
    Reassembly(ms, next.ToResponse(), k);
  }

  // ---------------------------------------------------------------- routing

  /** A delivery as the pending map sees it: the key it is looked up by and the decoded result. */
  datatype Answer = Answer(key: Id16, result: Result<CommandResult>)

  function Answers(ds: seq<Delivery>): (answers: seq<Answer>)
    ensures |answers| == |ds|
    ensures forall i :: 0 <= i < |ds| ==> answers[i] == Answer(ds[i].Key(), ds[i].Decoded())
  {
    seq(|ds|, i requires 0 <= i < |ds| => Answer(ds[i].Key(), ds[i].Decoded()))
  }

  /** What each waiting request receives: an answer goes to the waiter it names and removes it. */
  function Route(waiting: set<Id16>, answers: seq<Answer>): map<Id16, Result<CommandResult>> {
    if answers == [] then map[] else
    var key := answers[0].key;
    if key in waiting then Route(waiting - {key}, answers[1..])[key := answers[0].result]
    else Route(waiting, answers[1..])
  }

  /** The first answer that carries an id. */
  function FirstFor(answers: seq<Answer>, id: Id16): (first: Option<Answer>)
    ensures first.Some? ==> first.value in answers && first.value.key == id
    ensures first.None? ==> forall a :: a in answers ==> a.key != id
  {
    if answers == [] then None
    else if answers[0].key == id then Some(answers[0])
    else FirstFor(answers[1..], id)
  }

  /** A waiter receives the first answer that carries its id, and nothing if there is none. */
  lemma {:induction false} RouteMeaning(waiting: set<Id16>, answers: seq<Answer>, id: Id16)
    ensures id in Route(waiting, answers) <==> id in waiting && FirstFor(answers, id).Some?
    ensures id in Route(waiting, answers) ==> Route(waiting, answers)[id] == FirstFor(answers, id).value.result
  {
    if answers != [] {
      var key := answers[0].key;
      RouteMeaning(if key in waiting then waiting - {key} else waiting, answers[1..], id);
    }
  }

  ghost predicate DistinctIds(answers: seq<Answer>) {
    forall a, b :: a in answers && b in answers && a.key == b.key ==> a == b
  }

  lemma RouteUnordered(waiting: set<Id16>, answers: seq<Answer>, others: seq<Answer>)
    requires forall a :: a in answers <==> a in others
    requires DistinctIds(answers)
    ensures Route(waiting, answers) == Route(waiting, others)
  {
    var r, s := Route(waiting, answers), Route(waiting, others);
    forall id: Id16
      ensures id in r <==> id in s
      ensures id in r && id in s ==> r[id] == s[id]
    {
      RouteMeaning(waiting, answers, id);
      RouteMeaning(waiting, others, id);
      var a, b := FirstFor(answers, id), FirstFor(others, id);
      assert a.Some? ==> a.value in others;
      assert b.Some? ==> b.value in answers;
    }
    assert r.Keys == s.Keys;
  }

  lemma SameAnswers(ms: seq<Response>, ns: seq<Response>)
    requires multiset(ms) == multiset(ns)
    ensures forall a :: a in Answers(Deliveries(ms)) ==> a in Answers(Deliveries(ns))
  {
    var xs, ys := Answers(Deliveries(ms)), Answers(Deliveries(ns));
    forall i | 0 <= i < |xs|
      ensures xs[i] in ys
    {
      assert ms[i] in multiset(ns);
      var j :| 0 <= j < |ns| && ns[j] == ms[i];
      assert ys[j] == xs[i];
    }
  }

  /** With distinct request ids, the order in which the server answers does not matter: every permutation of
      the response frames gives every waiter the same result. */
  lemma ArrivalOrderIrrelevant(waiting: set<Id16>, ms: seq<Response>, ns: seq<Response>)
    requires forall m :: m in ms ==> m.Sendable()
    requires multiset(ms) == multiset(ns)
    requires DistinctIds(Answers(Deliveries(ms)))
    ensures Route(waiting, Answers(ReadAll(Concat(Wires(ms))).deliveries))
         == Route(waiting, Answers(ReadAll(Concat(Wires(ns))).deliveries))
  {
    assert forall m :: m in ns ==> m in multiset(ms);
    WholeStream(ms);
    WholeStream(ns);
    SameAnswers(ms, ns);
    SameAnswers(ns, ms);
    RouteUnordered(waiting, Answers(Deliveries(ms)), Answers(Deliveries(ns)));
  }

  /** The uncut stream. */
  lemma WholeStream(ms: seq<Response>)
    requires forall m :: m in ms ==> m.Sendable()
    ensures ReadAll(Concat(Wires(ms))) == Reading(Deliveries(ms), HeaderFailed)
  {
    var any := Response(seq(64, _ => 0), []);
    Reassembly(ms, any, 0);
    assert Concat(Wires(ms)) + any.Wire()[..0] == Concat(Wires(ms));
  }
}
