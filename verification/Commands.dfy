/** Request frames (src/protocol/command.rs): a 64-byte header, followed by a data tree when the data flag is set. */
module Commands {
  import opened Bytes
  import opened Protocol
  import opened LockDataTrees

  datatype LockCommand = LockCommand(
    commandType: u8, flag: u8, dbId: u8, requestId: Id16, lockKey: Key16, lockId: Id16,
    timeout: u32, expired: u32, count: u16, rCount: u8, data: Option<LockData>)
  {
    predicate HasExtraData() {
      HasFlag(flag, FLAG_CONTAINS_DATA)
    }
  }

  datatype Command =
    | Init(initRequestId: Id16, clientId: Id16)
    | Ping(pingRequestId: Id16)
    | Lock(lock: LockCommand)
  {
    function RequestId(): Id16 {
      match this
      case Init(id, _) => id
      case Ping(id) => id
      case Lock(lock) => lock.requestId
    }

    function Type(): u8 {
      match this
      case Init(_, _) => COMMAND_TYPE_INIT
      case Ping(_) => COMMAND_TYPE_PING
      case Lock(lock) => lock.commandType
    }

    /** Seconds: the low half of the packed timeout. */
    function TimeoutSeconds(): nat {
      if Lock? then lock.timeout % 0x1_0000 else 0
    }
  }

  datatype EncodedCommand = EncodedCommand(
    requestId: Id16, commandType: u8, header: Header, extra: Option<seq<u8>>, timeout: nat)
  {
    function Frame(): seq<u8> {
      header + if extra.Some? then extra.value else []
    }
  }

  function Zeros(n: nat): (s: seq<u8>)
    ensures |s| == n
  {
    seq(n, _ => 0)
  }

  /** The first 19 bytes of every header. */
  function Prefix(commandType: u8, requestId: Id16): (s: seq<u8>)
    ensures |s| == 19
    ensures s[0] == MAGIC && s[1] == VERSION && s[2] == commandType && s[3..19] == requestId
  {
    [MAGIC, VERSION, commandType] + requestId
  }

  function LockNumbers(k: LockCommand): (s: seq<u8>)
    ensures |s| == 11
    ensures s[0..4] == LittleEndian(k.timeout, 4) && s[4..8] == LittleEndian(k.expired, 4)
    ensures s[8..10] == LittleEndian(k.count, 2) && s[10] == k.rCount
  {
    LittleEndian(k.timeout, 4) + LittleEndian(k.expired, 4) + LittleEndian(k.count, 2) + [k.rCount]
  }

  function LockBody(k: LockCommand): (s: seq<u8>)
    ensures |s| == 45
    ensures s[0] == k.flag && s[1] == k.dbId && s[2..18] == k.lockId
    ensures s[18..34] == k.lockKey && s[34..] == LockNumbers(k)
  {
    [k.flag, k.dbId] + k.lockId + k.lockKey + LockNumbers(k)
  }

  function Body(c: Command): (s: seq<u8>)
    ensures |s| == 45
  {
    match c
    case Init(_, clientId) => clientId + Zeros(29)
    case Ping(_) => Zeros(45)
    case Lock(k) => LockBody(k)
  }

  /** The header, field by field in wire order. */
  function HeaderOf(c: Command): Header {
    Prefix(c.Type(), c.RequestId()) + Body(c)
  }

  function ExtraOf(c: Command): Result<Option<seq<u8>>> {
    if !c.Lock? || !c.lock.HasExtraData() then Ok(None)
    else if c.lock.data.None? then Err(LockDataError(MissingData)) else
    var bytes :- Encode(c.lock.data.value);
    Ok(Some(bytes))
  }

  function EncodeCommand(c: Command): Result<EncodedCommand> {
    var extra :- ExtraOf(c);
    Ok(EncodedCommand(c.RequestId(), c.Type(), HeaderOf(c), extra, c.TimeoutSeconds()))
  }

  /** `copy_from_slice` into a range of an array. */
  method Put(a: array<u8>, at: nat, bytes: seq<u8>)
    requires at + |bytes| <= a.Length
    modifies a
    ensures a[..at + |bytes|] == old(a[..at]) + bytes
    ensures a[at + |bytes|..] == old(a[at + |bytes|..])
  {
    var i := 0;
    while i < |bytes|
      invariant 0 <= i <= |bytes|
      invariant a[..at + i] == old(a[..at]) + bytes[..i]
      invariant a[at + i..] == old(a[at + i..])
    {
      a[at + i] := bytes[i];
      assert a[..at + i + 1] == a[..at + i] + [bytes[i]];
      i := i + 1;
    }
  }

  method FillLockBody(header: array<u8>, k: LockCommand)
    requires header.Length == 64
    modifies header
    ensures header[..] == old(header[..19]) + LockBody(k)
  {
    Put(header, 19, [k.flag, k.dbId]);
    Put(header, 21, k.lockId);
    Put(header, 37, k.lockKey);
    Put(header, 53, LittleEndian(k.timeout, 4));
    Put(header, 57, LittleEndian(k.expired, 4));
    Put(header, 61, LittleEndian(k.count, 2));
    Put(header, 63, [k.rCount]);
    assert header[..] == header[..64];
  }

  method FillHeader(header: array<u8>, c: Command)
    requires header.Length == 64 && header[..] == Zeros(64)
    modifies header
    ensures header[..] == HeaderOf(c)
  {
    Put(header, 0, [MAGIC, VERSION, c.Type()]);
    assert header[3..] == Zeros(61);
    label Typed:
    Put(header, 3, c.RequestId());
    assert header[19..] == old@Typed(header[3..])[16..] == Zeros(45);
    assert header[..19] == Prefix(c.Type(), c.RequestId());
    assert header[..] == header[..19] + header[19..];
    if c.Init? {
      label Identified:
      Put(header, 19, c.clientId);
      assert header[35..] == old@Identified(header[19..])[16..] == Zeros(29);
      assert header[..] == header[..35] + header[35..];
      assert header[..] == Prefix(c.Type(), c.RequestId()) + (c.clientId + Zeros(29));
    } else if c.Lock? {
      FillLockBody(header, c.lock);
    }
  }

  /** `Command::encode`: the header array is filled in place, then the data is encoded. */
  method EncodeRequest(c: Command) returns (r: Result<EncodedCommand>)
    ensures r == EncodeCommand(c)
  {
    var header := new u8[64](_ => 0);
    assert header[..] == Zeros(64);
    FillHeader(header, c);
    var extra: Option<seq<u8>> := None;
    if c.Lock? && c.lock.HasExtraData() {
      if c.lock.data.None? {
        return Err(LockDataError(MissingData));
      }
      var bytes := EncodeInto(c.lock.data.value);
      if bytes.Err? {
        return Err(bytes.error);
      }
      extra := Some(bytes.value);
    }
    r := Ok(EncodedCommand(c.RequestId(), c.Type(), header[..], extra, c.TimeoutSeconds()));
  }

  /** Why a command does not encode: its data flag asks for data it does not have, or its data does not encode. */
  lemma EncodeErrorTells(c: Command)
    ensures EncodeCommand(c) == Err(LockDataError(MissingData))
       <==> c.Lock? && (c.lock.flag / 0x20) % 2 == 1 && c.lock.data.None?
    ensures EncodeCommand(c).Err? && EncodeCommand(c).error != LockDataError(MissingData) ==>
              c.Lock? && c.lock.data.Some? && Encode(c.lock.data.value) == Err(EncodeCommand(c).error)
  {
    if c.Lock? && c.lock.data.Some? {
      LockDataTrees.EncodeErrorTells(c.lock.data.value);
    }
  }

  /** What an encoded command says of itself is what its header says, byte by byte: magic, version, the type of the
      command, its id, and for a lock command the low half of its timeout; it carries data exactly when the data flag
      asks for it. */
  lemma EncodedFields(c: Command)
    requires EncodeCommand(c).Ok?
    ensures var e := EncodeCommand(c).value;
            && e.header[0] == 0x56 && e.header[1] == 0x01 && e.commandType == e.header[2]
            && (c.Init? ==> e.header[2] == 0x00) && (c.Ping? ==> e.header[2] == 0x05)
            && (c.Lock? ==> e.header[2] == c.lock.commandType)
            && e.requestId == e.header[3..19]
            && e.timeout == (if c.Lock? then ReadU16(e.header[53..55]) else 0)
            && (e.extra.Some? <==> c.Lock? && (e.header[19] / 0x20) % 2 == 1)
  {
    HeaderStart(c);
    if c.Lock? {
      LockHeaderSlices(c.lock);
      LowHalf(c.lock, HeaderOf(c));
    }
  }

  lemma HeaderStart(c: Command)
    ensures var h := HeaderOf(c);
            h[0] == 0x56 && h[1] == 0x01 && h[2] == c.Type() && h[3..19] == c.RequestId()
  {
    var h, start := HeaderOf(c), Prefix(c.Type(), c.RequestId());
    assert h[..19] == start;
    assert h[0] == h[..19][0] && h[1] == h[..19][1] && h[2] == h[..19][2] && h[3..19] == h[..19][3..];
  }

  lemma LowHalf(k: LockCommand, h: Header)
    requires h[53..] == LockNumbers(k)
    ensures ReadU16(h[53..55]) == k.timeout % 0x1_0000
  {
    assert h[53..57] == h[53..][0..4] == LittleEndian(k.timeout, 4);
    assert h[53..55] == h[53..57][..2];
    LowBytes(k.timeout);
  }

  lemma LowBytes(n: u32)
    ensures ReadU16(LittleEndian(n, 4)[..2]) == n % 0x1_0000
  {
    var a := n / 256;
    assert LittleEndian(n, 4) == [n % 256] + LittleEndian(a, 3);
    assert LittleEndian(a, 3) == [a % 256] + LittleEndian(a / 256, 2);
    assert LittleEndian(n, 4)[..2] == [n % 256, a % 256];
    assert FromLittleEndian([a % 256]) == a % 256 + 256 * FromLittleEndian([]);
    assert [n % 256, a % 256][1..] == [a % 256];
    assert n % 0x1_0000 == n % 256 + 256 * (a % 256);
  }

  // ---------------------------------------------------------------- a server's parser

  function ParseLockHeader(h: Header): LockCommand {
    LockCommand(h[2], h[19], h[20], h[3..19], h[37..53], h[21..37],
                ReadU32(h[53..57]), ReadU32(h[57..61]), ReadU16(h[61..63]), h[63], None)
  }

  /** Reads one request off the front of the stream: the command type and bit 0x20 of byte 19 decide
      whether a data tree follows the header. */
  function ParseRequest(stream: seq<u8>): (r: Option<(Command, seq<u8>)>)
    ensures r.Some? ==> |r.value.1| < |stream|
  {
    if |stream| < 64 || stream[0] != MAGIC || stream[1] != VERSION then None else
    var h: Header, rest := stream[..64], stream[64..];
    if h[2] == COMMAND_TYPE_INIT then Some((Init(h[3..19], h[19..35]), rest))
    else if h[2] == COMMAND_TYPE_PING then Some((Ping(h[3..19]), rest))
    else if h[2] != COMMAND_TYPE_LOCK && h[2] != COMMAND_TYPE_UNLOCK then None
    else if !HasFlag(h[19], FLAG_CONTAINS_DATA) then Some((Lock(ParseLockHeader(h)), rest)) else
    match Parse(rest)
    case None => None
    case Some((data, after)) => Some((Lock(ParseLockHeader(h).(data := Some(data))), after))
  }

  function ParseRequests(stream: seq<u8>): Option<seq<Command>> {
    if stream == [] then Some([]) else
    match ParseRequest(stream)
    case None => None
    case Some((first, rest)) =>
      match ParseRequests(rest)
      case None => None
      case Some(later) => Some([first] + later)
  }

  /** A lock or unlock command that carries data sets the data flag, and its data tree is well-formed. */
  ghost predicate WellFormedCommand(c: Command) {
    c.Lock? ==>
      && (c.lock.commandType == COMMAND_TYPE_LOCK || c.lock.commandType == COMMAND_TYPE_UNLOCK)
      && (c.lock.data.Some? ==> c.lock.HasExtraData() && WellFormed(c.lock.data.value))
  }

  lemma LockHeaderSlices(k: LockCommand)
    ensures var h := HeaderOf(Lock(k));
            && h[2] == k.commandType && h[3..19] == k.requestId && h[19] == k.flag && h[20] == k.dbId
            && h[21..37] == k.lockId && h[37..53] == k.lockKey && h[53..] == LockNumbers(k)
  {
    var h, body := HeaderOf(Lock(k)), LockBody(k);
    assert h[19..] == body;
    assert h[21..37] == body[2..18] && h[37..53] == body[18..34] && h[53..] == body[34..];
  }

  lemma NumbersRead(k: LockCommand, h: Header)
    requires h[53..] == LockNumbers(k)
    ensures ReadU32(h[53..57]) == k.timeout && ReadU32(h[57..61]) == k.expired && ReadU16(h[61..63]) == k.count
    ensures h[63] == k.rCount
  {
    var tail := h[53..];
    assert h[53..57] == tail[0..4] && h[57..61] == tail[4..8] && h[61..63] == tail[8..10] && h[63] == tail[10];
    ReadBackU32(k.timeout);
    ReadBackU32(k.expired);
    ReadBackU16(k.count);
  }

  lemma LockHeaderFields(k: LockCommand)
    ensures ParseLockHeader(HeaderOf(Lock(k))) == k.(data := None)
  {
    LockHeaderSlices(k);
    NumbersRead(k, HeaderOf(Lock(k)));
  }

  lemma InitHeaderFields(id: Id16, clientId: Id16)
    ensures var h := HeaderOf(Init(id, clientId));
            h[3..19] == id && h[19..35] == clientId
  {
  }

  lemma ParseEncodedRequest(c: Command, rest: seq<u8>)
    requires EncodeCommand(c).Ok? && WellFormedCommand(c)
    ensures ParseRequest(EncodeCommand(c).value.Frame() + rest) == Some((c, rest))
  {
    var e := EncodeCommand(c).value;
    FrameSplit(e, rest);
    if e.extra.Some? {
      ParseEncode(c.lock.data.value, rest);
      ParseAfterHeader(c, e.extra.value + rest);
      assert c.lock.(data := Some(c.lock.data.value)) == c.lock;
    } else {
      ParseAfterHeader(c, rest);
    }
  }

  lemma FrameSplit(e: EncodedCommand, rest: seq<u8>)
    ensures e.Frame() + rest == e.header + (if e.extra.Some? then e.extra.value + rest else rest)
  {
  }

  lemma ParseAfterHeader(c: Command, after: seq<u8>)
    requires WellFormedCommand(c)
    ensures var r := ParseRequest(HeaderOf(c) + after);
            if c.Lock? && c.lock.HasExtraData() then
              r == match Parse(after)
                   case None => None
                   case Some((data, rest)) => Some((Lock(c.lock.(data := Some(data))), rest))
            else r == Some((if c.Lock? then Lock(c.lock.(data := None)) else c, after))
  {
    var h, stream := HeaderOf(c), HeaderOf(c) + after;
    assert stream[..64] == h && stream[64..] == after;
    assert h[..19] == Prefix(c.Type(), c.RequestId());
    assert h[0] == MAGIC && h[1] == VERSION && h[2] == c.Type() && h[3..19] == c.RequestId();
    match c {
      case Init(id, clientId) => InitHeaderFields(id, clientId);
      case Ping(_) =>
      case Lock(k) =>
        LockHeaderFields(k);
        assert h[19] == Body(c)[0] == k.flag;
    }
  }

  /** Every command that encodes is recovered field by field, data tree included, exactly when it is well-formed. */
  lemma RequestRoundTripExactly(c: Command, rest: seq<u8>)
    requires EncodeCommand(c).Ok?
    ensures ParseRequest(EncodeCommand(c).value.Frame() + rest) == Some((c, rest)) <==> WellFormedCommand(c)
  {
    if WellFormedCommand(c) {
      ParseEncodedRequest(c, rest);
    } else {
      var stream := EncodeCommand(c).value.Frame() + rest;
      if ParseRequest(stream) == Some((c, rest)) && c.lock.HasExtraData() {
        ParseSound(stream[64..]);
      }
    }
  }

  function FrameList(commands: seq<Command>): (frames: seq<seq<u8>>)
    requires forall i :: 0 <= i < |commands| ==> EncodeCommand(commands[i]).Ok?
    ensures |frames| == |commands|
    ensures forall i :: 0 <= i < |commands| ==> frames[i] == EncodeCommand(commands[i]).value.Frame()
  {
    seq(|commands|, i requires 0 <= i < |commands| => EncodeCommand(commands[i]).value.Frame())
  }

  /** Reads exactly command c off any stream that starts with the frame. */
  ghost predicate Carries(frame: seq<u8>, c: Command) {
    forall rest :: ParseRequest(frame + rest) == Some((c, rest))
  }

  lemma {:induction false} ReadFrames(frames: seq<seq<u8>>, commands: seq<Command>)
    requires |frames| == |commands|
    requires forall i :: 0 <= i < |frames| ==> Carries(frames[i], commands[i])
    ensures ParseRequests(Concat(frames)) == Some(commands)
  {
    if commands != [] {
      assert ParseRequest(frames[0] + Concat(frames[1..])) == Some((commands[0], Concat(frames[1..])));
      ReadFrames(frames[1..], commands[1..]);
      assert [commands[0]] + commands[1..] == commands;
    }
  }

  /** A server reading the concatenated frames gets back exactly the commands, in order. */
  lemma RequestStream(commands: seq<Command>)
    requires forall i :: 0 <= i < |commands| ==> EncodeCommand(commands[i]).Ok? && WellFormedCommand(commands[i])
    ensures ParseRequests(Concat(FrameList(commands))) == Some(commands)
  {
    var frames := FrameList(commands);
    forall i | 0 <= i < |commands|
      ensures Carries(frames[i], commands[i])
    {
      forall rest: seq<u8>
        ensures ParseRequest(frames[i] + rest) == Some((commands[i], rest))
      {
        ParseEncodedRequest(commands[i], rest);
      }
    }
    ReadFrames(frames, commands);
  }
}
