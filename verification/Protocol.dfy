/** The values every layer of the client passes around: options, results, errors and the
    response records (src/error.rs, src/protocol/result.rs, src/protocol/constants.rs). */
module Protocol {
  import opened Bytes

  datatype Option<+T> = None | Some(value: T)

  datatype Result<+T> = Ok(value: T) | Err(error: SlockError) {
    predicate IsFailure() {
      Err?
    }

    function PropagateFailure<U>(): Result<U>
      requires Err?
    {
      Err(error)
    }

    function Extract(): T
      requires Ok?
    {
      value
    }
  }

  type Id16 = s: seq<u8> | |s| == 16 witness [0, 0, 0, 0, 0, 0, 0, 0, 0, 0, 0, 0, 0, 0, 0, 0]
  type Key16 = Id16
  type Header = s: seq<u8> | |s| == 64
    witness seq(64, _ => 0)

  const MAGIC: u8 := 0x56
  const VERSION: u8 := 0x01
  const COMMAND_TYPE_INIT: u8 := 0x00
  const COMMAND_TYPE_LOCK: u8 := 0x01
  const COMMAND_TYPE_UNLOCK: u8 := 0x02
  const COMMAND_TYPE_PING: u8 := 0x05

  const COMMAND_RESULT_SUCCED: u8 := 0x00
  const COMMAND_RESULT_LOCKED_ERROR: u8 := 0x05
  const COMMAND_RESULT_UNLOCK_ERROR: u8 := 0x06
  const COMMAND_RESULT_UNOWN_ERROR: u8 := 0x07
  const COMMAND_RESULT_TIMEOUT: u8 := 0x08
  const COMMAND_RESULT_EXPRIED: u8 := 0x09
  const COMMAND_RESULT_STATE_ERROR: u8 := 0x0a

  const INIT_TYPE_FLAG_IS_LEADER := 0x04
  const FLAG_CONTAINS_DATA := 0x20  // LOCK_FLAG_CONTAINS_DATA and UNLOCK_FLAG_CONTAINS_DATA
  const LOCK_FLAG_LOCK_TREE_LOCK: u8 := 0x10
  const UNLOCK_FLAG_UNLOCK_FIRST_LOCK_WHEN_UNLOCKED: u8 := 0x01
  const TIMEOUT_FLAG_RCOUNT_IS_PRIORITY := 0x0010
  const EXPRIED_FLAG_MINUTE_TIME := 0x0040
  const EXPRIED_FLAG_MILLISECOND_TIME := 0x0400

  const LOCK_DATA_STAGE_CURRENT: u8 := 0
  const LOCK_DATA_COMMAND_TYPE_UNSET: u8 := 1
  const LOCK_DATA_COMMAND_TYPE_INCR: u8 := 2
  const LOCK_DATA_COMMAND_TYPE_PIPELINE: u8 := 6
  const LOCK_DATA_FLAG_VALUE_TYPE_NUMBER: u8 := 0x01
  const LOCK_DATA_FLAG_VALUE_TYPE_ARRAY := 0x02
  const LOCK_DATA_FLAG_VALUE_TYPE_KV := 0x04
  const LOCK_DATA_FLAG_CONTAINS_PROPERTY := 0x10

  datatype LockCommandResult = LockCommandResult(
    commandType: u8, requestId: Id16, result: u8, flag: u8, dbId: u8, lockId: Id16, lockKey: Key16,
    lCount: u16, count: u16, lrCount: u8, rCount: u8, data: Option<seq<u8>>)

  datatype CommandResult =
    | InitResult(initRequestId: Id16, initCode: u8, initType: u8)
    | PingResult(pingRequestId: Id16, pingCode: u8)
    | LockResult(lock: LockCommandResult)
  {
    function RequestId(): Id16 {
      match this
      case InitResult(id, _, _) => id
      case PingResult(id, _) => id
      case LockResult(lock) => lock.requestId
    }
  }

  datatype ProtocolFault = UnknownMagic | UnknownVersion | UnknownCommandType | ExpectedLockResult | ExpectedInitResult

  datatype DataFault =
    | EmptyPipeline | LengthExceedsU32 | MissingData
    | ShorterThanHeader | PropertyLengthMissing
    | ListValueExceedsData | MapKeyExceedsData | InvalidUtf8Key | MapValueLengthMissing | MapValueExceedsData
    | NoReadLock

  datatype SlockError =
    | Io
    | ProtocolError(protocolFault: ProtocolFault)
    | ClientClosed
    | NotConnected
    | CommandTimeout
    | LockLocked(result: LockCommandResult)
    | LockUnlocked(result: LockCommandResult)
    | LockNotOwn(result: LockCommandResult)
    | LockTimeout(result: LockCommandResult)
    | LockExpired(result: LockCommandResult)
    | StateError(result: LockCommandResult)
    | Server(code: u8)
    | LockDataError(dataFault: DataFault)
}
