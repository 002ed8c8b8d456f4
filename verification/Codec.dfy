/** Response headers (src/protocol/codec.rs) and the key a response is routed by. */
module Codec {
  import opened Bytes
  import opened Protocol

  function ValidateHeader(h: Header): Result<()> {
    if h[0] != MAGIC then Err(ProtocolError(UnknownMagic))
    else if h[1] != VERSION then Err(ProtocolError(UnknownVersion))
    else Ok(())
  }

  function DecodeResponse(h: Header, data: Option<seq<u8>>): Result<CommandResult> {
    var _ :- ValidateHeader(h);
    if h[2] == COMMAND_TYPE_INIT then Ok(InitResult(h[3..19], h[19], h[20]))
    else if h[2] == COMMAND_TYPE_PING then Ok(PingResult(h[3..19], h[19]))
    else if h[2] == COMMAND_TYPE_LOCK || h[2] == COMMAND_TYPE_UNLOCK then
      Ok(LockResult(LockCommandResult(h[2], h[3..19], h[19], h[20], h[21], h[22..38], h[38..54],
                                      ReadU16(h[54..56]), ReadU16(h[56..58]), h[58], h[59], data)))
    else Err(ProtocolError(UnknownCommandType))
  }

  /** Why a header does not decode: its magic, else its version, else a type that is none of init, lock, unlock and
      ping. */
  lemma DecodeFailsExactly(h: Header, data: Option<seq<u8>>)
    ensures DecodeResponse(h, data) == Err(ProtocolError(UnknownMagic)) <==> h[0] != 0x56
    ensures DecodeResponse(h, data) == Err(ProtocolError(UnknownVersion)) <==> h[0] == 0x56 && h[1] != 0x01
    ensures DecodeResponse(h, data) == Err(ProtocolError(UnknownCommandType))
       <==> h[0] == 0x56 && h[1] == 0x01 && h[2] !in {0x00, 0x01, 0x02, 0x05}
    ensures DecodeResponse(h, data).Ok? <==> h[0] == 0x56 && h[1] == 0x01 && h[2] in {0x00, 0x01, 0x02, 0x05}
  {
  }

  predicate ResponseHasExtraData(h: Header) {
    (h[2] == COMMAND_TYPE_LOCK || h[2] == COMMAND_TYPE_UNLOCK) && HasFlag(h[20], FLAG_CONTAINS_DATA)
  }

  /** The key the reader looks up: the decoded result's request id, or the header's id bytes when decoding fails. */
  function RoutingKey(h: Header, data: Option<seq<u8>>): Id16 {
    match DecodeResponse(h, data)
    case Ok(result) => result.RequestId()
    case Err(_) => h[3..19]
  }

  /** The two keys never differ. */
  lemma RoutingKeyIsHeaderId(h: Header, data: Option<seq<u8>>)
    ensures RoutingKey(h, data) == h[3..19]
  {
  }

  // ---------------------------------------------------------------- a server's printer

  ghost predicate Printable(r: CommandResult) {
    r.LockResult? ==> r.lock.commandType == COMMAND_TYPE_LOCK || r.lock.commandType == COMMAND_TYPE_UNLOCK
  }

  function PaddingLength(r: CommandResult): nat {
    match r
    case InitResult(_, _, _) => 43
    case PingResult(_, _) => 44
    case LockResult(_) => 4
  }

  function LockNumbers(k: LockCommandResult): (s: seq<u8>)
    ensures |s| == 6
    ensures s[0..2] == LittleEndian(k.lCount, 2) && s[2..4] == LittleEndian(k.count, 2)
    ensures s[4] == k.lrCount && s[5] == k.rCount
  {
    LittleEndian(k.lCount, 2) + LittleEndian(k.count, 2) + [k.lrCount, k.rCount]
  }

  function Body(r: CommandResult): (s: seq<u8>)
    ensures |s| == 45 - PaddingLength(r)
  {
    match r
    case InitResult(_, code, initType) => [code, initType]
    case PingResult(_, code) => [code]
    case LockResult(k) => [k.result, k.flag, k.dbId] + k.lockId + k.lockKey + LockNumbers(k)
  }

  function ResponseType(r: CommandResult): u8 {
    match r
    case InitResult(_, _, _) => COMMAND_TYPE_INIT
    case PingResult(_, _) => COMMAND_TYPE_PING
    case LockResult(k) => k.commandType
  }

  /** The header of a result; the bytes the client does not look at are arbitrary. */
  function ResponseHeader(r: CommandResult, padding: seq<u8>): Header
    requires |padding| == PaddingLength(r)
  {
    [MAGIC, VERSION, ResponseType(r)] + r.RequestId() + Body(r) + padding
  }

  function DataOf(r: CommandResult): Option<seq<u8>> {
    if r.LockResult? then r.lock.data else None
  }

  lemma LockBodyFields(k: LockCommandResult, padding: seq<u8>)
    requires |padding| == 4
    ensures var h := ResponseHeader(LockResult(k), padding);
            && h[19] == k.result && h[20] == k.flag && h[21] == k.dbId
            && h[22..38] == k.lockId && h[38..54] == k.lockKey
            && ReadU16(h[54..56]) == k.lCount && ReadU16(h[56..58]) == k.count
            && h[58] == k.lrCount && h[59] == k.rCount
  {
    var h, body := ResponseHeader(LockResult(k), padding), Body(LockResult(k));
    assert h[19..60] == body;
    assert body[3..19] == k.lockId && body[19..35] == k.lockKey && body[35..] == LockNumbers(k);
    assert h[22..38] == body[3..19] && h[38..54] == body[19..35];
    assert h[54..56] == LockNumbers(k)[0..2] && h[56..58] == LockNumbers(k)[2..4];
    ReadBackU16(k.lCount);
    ReadBackU16(k.count);
  }

  /** Every printable result is decoded with all its fields, whatever the padding. */
  lemma DecodePrinted(r: CommandResult, padding: seq<u8>)
    requires Printable(r) && |padding| == PaddingLength(r)
    ensures DecodeResponse(ResponseHeader(r, padding), DataOf(r)) == Ok(r)
  {
    var h := ResponseHeader(r, padding);
    assert h[3..19] == r.RequestId();
    match r {
      case InitResult(_, code, initType) => assert h[19] == code && h[20] == initType;
      case PingResult(_, code) => assert h[19] == code;
      case LockResult(k) => LockBodyFields(k, padding);
    }
  }

  lemma HeaderPieces(h: Header, n: nat)
    requires 19 <= n <= 64
    ensures h == h[..3] + h[3..19] + h[19..n] + h[n..]
  {
  }

  lemma LockBodyPieces(h: Header, k: LockCommandResult)
    requires k.result == h[19] && k.flag == h[20] && k.dbId == h[21] && k.lockId == h[22..38] && k.lockKey == h[38..54]
    requires LockNumbers(k) == h[54..60]
    ensures Body(LockResult(k)) == h[19..60]
  {
    var body := h[19..60];
    assert body == body[..3] + body[3..19] + body[19..35] + body[35..];
    assert body[..3] == [h[19], h[20], h[21]];
    SliceOfSlice(h, 19, 60, 3, 19);
    SliceOfSlice(h, 19, 60, 19, 35);
    SliceOfSlice(h, 19, 60, 35, 41);
  }

  lemma SliceOfSlice(s: seq<u8>, a: nat, b: nat, c: nat, d: nat)
    requires a <= b <= |s| && c <= d <= b - a
    ensures s[a..b][c..d] == s[a + c..a + d]
  {
    assert forall i :: 0 <= i < d - c ==> s[a..b][c..d][i] == s[a + c..a + d][i];
  }

  lemma LockNumberPieces(h: Header, k: LockCommandResult)
    requires k.lCount == ReadU16(h[54..56]) && k.count == ReadU16(h[56..58]) && k.lrCount == h[58] && k.rCount == h[59]
    ensures LockNumbers(k) == h[54..60]
  {
    WriteBackU16(h[54..56]);
    WriteBackU16(h[56..58]);
    assert h[54..60] == h[54..56] + h[56..58] + [h[58], h[59]];
  }

  /** And nothing else decodes: a header that decodes is the printed header of its result. */
  lemma PrintDecoded(h: Header, data: Option<seq<u8>>)
    requires DecodeResponse(h, data).Ok?
    ensures var r := DecodeResponse(h, data).value;
            Printable(r) && h == ResponseHeader(r, h[64 - PaddingLength(r)..])
  {
    var r := DecodeResponse(h, data).value;
    HeaderPieces(h, 64 - PaddingLength(r));
    assert h[..3] == [MAGIC, VERSION, ResponseType(r)];
    match r {
      case InitResult(_, _, _) =>
        assert h[19..21] == [h[19], h[20]];
      case PingResult(_, _) =>
        assert h[19..20] == [h[19]];
      case LockResult(k) =>
        LockNumberPieces(h, k);
        LockBodyPieces(h, k);
    }
  }
}
