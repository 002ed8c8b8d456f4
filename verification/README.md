# A verified model of the ruslock client

ruslock is a client for the `slock` lock server. Many threads share one connection; a reader thread hands each response to
the request it answers; a replica-set client retries on the next node until a deadline; lock objects send sequences of
commands and undo what they took when a later command fails. This project models those parts in Dafny and proves what
holds for every input, every run and every answer of the server.

Check everything with `dafny verify dfyconfig.toml`.

| module | models |
|---|---|
| `Bytes`, `Bits`, `Protocol` | integer widths, little-endian bytes, flag arithmetic and its reading as bit operations; the records, errors and constants |
| `Ids` | request ids from a clock, random bits and a wrapping counter; keys |
| `LockDataTrees` | trees of lock data and their encoding |
| `LockResultData` | reading the data attached to a response: lists, maps, integers |
| `Commands` | request frames and a server's parser for them |
| `Codec`, `ResponseStream`, `Routing` | response headers, the reader's loop over the byte stream, routing to the waiters' channels |
| `ConnectionState` | the state the threads share and the mutex regions that touch it |
| `ConnectionRuns` | the step machine: calls, readers, closers and openers, one region a step, any interleaving |
| `Connection` | the connection object, its methods proved to make exactly the machine's steps |
| `CallOutcomes` | which reply of a call means what happened, and what waiters are told |
| `ConnectionGuarantees`, `OneOpening`, `NoStrandedWaiter`, `WireOrder` | what holds over every run of the machine |
| `Overtaking`, `LockOrder` | when a close that overtakes an open strands a call, and when two threads block each other |
| `Replset`, `ReplsetClient`, `ReplsetRuns`, `ReplsetProjection`, `ReplsetCallers` | ring scan and retry loop, the client object, any number of callers, and that each of them computes the sequential call |
| `InFlightIds` | ids from the generator are distinct wherever a guarantee asks for it |
| `Locks`, `ReadLocks`, `TokenBuckets` | locks over a backend that may answer anything |

How the parts are stated. A loop or a method that updates fields is an imperative method proved against a recursive
function; the theorems are about that function. A parser or a printer that is not in the client (a server's side) is an
independent definition, and the two are connected by a round trip in both directions. The concurrent connection is a step
machine whose steps are the mutex regions; the code of `send_command` is a method whose regions are proved to be steps of
that machine whatever the other threads do in between, and every step of another thread is proved to be one the method
tolerates.

Where the code breaks a rule it might be expected to keep, the rule's exact condition is proved:

- A tree survives encoding and parsing exactly when it is well-formed; a byte leaf of type PIPELINE encodes like a real
  pipeline (`LockDataTrees.PipelineLeafIsAmbiguous`).
- A map reads back exactly when every pair with an empty key has an empty value: the length of an empty key is skipped but
  its value is not (`LockResultData.MapRoundTripExactly`).
- A value sent with the property flag set is not read back unless it is empty (`LockResultData.DataRoundTripExactly`).
- A close that overtakes the open can strand a call: it waits with its entry in while the opener, the reader and every
  closer are done. For every run up to the open's connect, the run can go on to that state exactly when just after the
  connect the flag is up, every close has had its take, and a call is past its closed check or, with every close finished,
  has its entry in already (`Overtaking.StrandsExactly`; `Overtaking.CloseOvertakesOpen` is such a run). A close that ends
  before the open begins, or has still to take, does no harm.
- The reader takes the two mutexes in one order and a call that finds no writer in the other. A reader about to drain and a
  call about to look at the writer can block each other, and then for good, exactly when the writer is gone, which takes a
  close (`LockOrder.CollideExactly`, `LockOrder.LocksCanDeadlock`).
- Once the reader has ended and nobody has closed, a call can come to wait unanswered exactly when the reader ended by the
  branch for failed extra data, which wakes everyone but leaves the writer (`NoStrandedWaiter.ReaderEndStrandsExactly`).
- A cancelled asynchronous call leaves its entry in the map exactly when its `try_lock` lost the race and nobody had
  answered it (`ConnectionGuarantees.CancelLeavesEntryExactly`).
- A token is held for at least its period exactly when the period is at most 65535 seconds, and with a millisecond flag
  among the defaults exactly when it is below three seconds (`TokenBuckets.MillisecondDefaultShortensExactly`).

Where the code and its documentation differ the model follows the code: `release_read` releases the latest read, where
design.md:963 says the earliest, and a token bucket does not align to period boundaries, where design.md:987 says it does.

## Model

| member | source | states |
|---|---|---|
| Ids.IdGenerator.New | src/protocol/id.rs:12-39 | the sixteen bytes, stored by index, are six clock bytes, six random bytes and the four bytes of the bumped counter cut to 31 bits; the counter wraps at 2^32 |
| Ids.IdBytes | src/protocol/id.rs:12-39 | where each ingredient lies: bytes 0 to 5 are the clock's, 6 to 11 the random number's, 12 to 15 the bumped counter's 31 bits, each most significant byte first |
| Ids.IdsEqualExactly | src/protocol/id.rs:12-39 | two ids are equal exactly when the kept clock bits, the kept random bits and the 31 counter bits all agree |
| Ids.IdsDistinctInWindow | src/protocol/id.rs:33-38 | ids fewer than 2^31 increments apart always differ, for every clock, every random source and across the wrap of the counter |
| Ids.IdsAtWindowExactly | src/protocol/id.rs:33-38 | the window is exact: 2^31 increments apart only the clock and the random bits can tell two ids apart |
| Ids.KeyIsPaddedOrHashed | src/key.rs:7-21 | a key of up to sixteen bytes ends up on the right behind zeros, so one of sixteen is unchanged; a longer one becomes its hash |
| InFlightIds.ConnectionIdsAreDistinct | src/protocol/id.rs:33-38 | calls that draw their ids from the generator have distinct ids in flight on every run in which any two of them in flight drew fewer than 2^31 apart |
| InFlightIds.ReplsetIdsAreDistinct | src/protocol/id.rs:33-38 | the same for the unfinished callers of a replica set |
| InFlightIds.ReadIdsAreFresh | src/protocol/id.rs:33-38 | the same for the reads of one lock |
| Bits.PackStageIsBits | src/data/lock_data.rs:222 | the packed byte is the shift, the two masks and the or |
| Bits.TypeBits | src/data/lock_result_data.rs:20-26 | and the shift and the mask take it apart |
| Bits.DataFlagIsBit | src/protocol/command.rs:88-90 | testing and setting the data flag are the bit operations |
| Bits.ArrayFlagIsBit | src/data/lock_result_data.rs:165-169 | testing the array flag is the bit operation |
| Bits.KvAndLeaderFlagIsBit | src/data/lock_result_data.rs:171-175 | testing the map flag, and the leader flag of a node, is the bit operation |
| Bits.PropertyFlagIsBit | src/data/lock_result_data.rs:146-163 | testing the property flag is the bit operation |
| Bits.MinuteFlagIsBit | src/protocol/constants.rs:58 | reading the minute flag off a packed time is the bit operation |
| Bits.MergePriorityIsOr | src/time.rs:29-31 | merging the priority flag into a packed time is an or on its sixteen flag bits |
| Bits.MergeMillisecondIsOr | src/time.rs:29-31 | and so is merging the millisecond flag |
| LockDataTrees.EncodeInto | src/data/lock_data.rs:199-226 | the loop over a growing buffer computes the recursive encoding, errors included |
| LockDataTrees.EncodesExactly | src/data/lock_data.rs:199-226 | a tree encodes exactly when no pipeline in it is empty and its own value plus two fits in 32 bits; the length of the result |
| LockDataTrees.EncodeErrorTells | src/data/lock_data.rs:199-226 | why a tree does not encode: an empty pipeline or a length over 32 bits, whichever is the matter |
| LockDataTrees.ParseEncode | src/data/lock_data.rs:199-226 | a parser recovers any well-formed tree of any depth and leaves the bytes after it untouched |
| LockDataTrees.ParseSound | src/data/lock_data.rs:199-226 | whatever the parser accepts is well-formed and is the encoding of its result |
| LockDataTrees.RoundTripExactly | src/data/lock_data.rs:20-27 | among the trees that encode, exactly the well-formed ones survive; the raw constructor allows others |
| LockDataTrees.PrefixFree | src/data/lock_data.rs:199-226 | no encoding is a prefix of another tree's encoding |
| LockDataTrees.PipelineLeafIsAmbiguous | src/data/lock_data.rs:20-27 | a byte leaf of type PIPELINE has the encoding of a real pipeline |
| LockDataTrees.PipelineIsTypeSix | src/data/lock_data.rs:133-149 | among well-formed trees exactly those of wire type six are pipelines |
| LockResultData.AsList | src/data/lock_result_data.rs:63-84 | on every byte string the loop ends, reads in bounds and computes the recursive list parse |
| LockResultData.OtherwiseEmpty | src/data/lock_result_data.rs:165-175 | data without a header, with type byte one or with the flag clear reads as an empty list or map |
| LockResultData.ListBreaksOff | src/data/lock_result_data.rs:74-79 | a list that breaks off inside an item is refused, whatever came before |
| LockResultData.MapBreaksOff | src/data/lock_result_data.rs:96-133 | a map that breaks off is refused, whatever came before, with the reason for the entry it breaks off in: key too long, key not valid, no value length, value too long |
| LockResultData.CanonicalList | src/data/lock_result_data.rs:63-84 | a chain of length-prefixed items parses to its non-empty items in order, ignoring up to three stray bytes |
| LockResultData.ListIsChunks | src/data/lock_result_data.rs:63-84 | nothing else parses: a successful parse comes from such a chain |
| LockResultData.ListRoundTrip | src/data/lock_result_data.rs:63-84 | the same through the flags and an optional property block of any length |
| LockResultData.AsMap | src/data/lock_result_data.rs:96-133 | on every byte string the loop ends, reads in bounds and computes the recursive map parse |
| LockResultData.CanonicalMap | src/data/lock_result_data.rs:96-133 | pairs with non-empty valid keys parse to the map of the keys with a non-empty value, the last one winning |
| LockResultData.MapAcceptedExactly | src/data/lock_result_data.rs:96-133 | any byte string is accepted exactly when it is a chain of good pairs and bare zero lengths with at most three stray bytes after it, and the map then holds the last write of each key |
| LockResultData.MapRoundTripExactly | src/data/lock_result_data.rs:96-133 | through the flags and an optional property block, any pairs whose non-empty keys are valid read back as the last write of each key exactly when every empty key has an empty value |
| LockResultData.EmptyKeyShiftsTheRest | src/data/lock_result_data.rs:103-106 | after an empty key its value is read as the next key |
| LockResultData.MapReadsBackExactly | src/data/lock_result_data.rs:96-133 | the same for the value bytes alone, with up to three stray bytes after them |
| LockResultData.EmptyKeyBreaksMap | src/data/lock_result_data.rs:103-106 | one instance of its failing side: the one-pair map with an empty key and a value is always the missing-length error |
| LockResultData.PayloadValue | src/data/lock_result_data.rs:146-163 | the value starts after the property block when there is one and at byte six otherwise |
| LockResultData.OffsetRefusedExactly | src/data/lock_result_data.rs:146-163 | exactly when and why the value offset is refused; bytes and integer then read as nothing and nought |
| LockResultData.FieldsPresentExactly | src/data/lock_result_data.rs:20-30 | from which length on stage, type and flags are there, and which byte they come from |
| LockResultData.AsI64 | src/data/lock_result_data.rs:50-61 | the in-place copy of at most eight bytes is the zero-filled window at the value offset |
| LockResultData.ShortInteger | src/data/lock_result_data.rs:50-61 | a value of up to eight bytes reads as its zero-extended little-endian number |
| LockResultData.IntegerRoundTrip | src/data/lock_data.rs:65-72 | every 64-bit integer put into an increment comes back from the stored response |
| LockResultData.IncrementOnTheWire | src/data/lock_data.rs:65-72 | an increment is the bytes 10, 0, 0, 0, 2, 1 and the number |
| Bytes.TwosComplementMeans | src/data/lock_data.rs:65-72 | half of the 64-bit numbers stand for themselves, the other half for what is 2^64 less |
| Bytes.FourBytes | src/data/lock_data.rs:217-221 | lengths are written least significant byte first |
| LockResultData.DataRoundTripExactly | src/data/lock_result_data.rs:20-39 | a byte leaf returned by the server keeps stage, type and flags; its value is kept exactly when the property flag is clear or the value is empty |
| Commands.Put | src/protocol/command.rs:117-189 | copying a slice into the header array changes that range and nothing else |
| Commands.FillHeader | src/protocol/command.rs:117-189 | the header array filled in place is the wire layout of the command |
| Commands.EncodeRequest | src/protocol/command.rs:117-189 | header, data tree and both error cases of `encode` |
| Commands.EncodedFields | src/protocol/command.rs:117-189 | of every command that encodes: magic 0x56, version 1, its type, its id, the timeout in seconds as bytes 53 and 54 of a lock command's header and nought otherwise, and data exactly when bit 0x20 of a lock command's byte 19 asks for it |
| Commands.EncodeErrorTells | src/protocol/command.rs:117-189 | why a command does not encode: exactly when its data flag asks for data it does not have, or because its data does not |
| Commands.ParseEncodedRequest | src/protocol/command.rs:117-189 | a server's parser recovers every field and the data tree of a well-formed command from the front of any stream |
| Commands.RequestRoundTripExactly | src/protocol/command.rs:88-90 | it does so exactly for the well-formed commands: the data flag matches the data |
| Commands.RequestStream | src/protocol/command.rs:221-228 | concatenated frames parse back to exactly the commands, in order |
| Codec.RoutingKeyIsHeaderId | src/blocking/connection.rs:192-201 | the decoded and the fallback routing keys are both bytes 3 to 19 of the header |
| Codec.DecodePrinted | src/protocol/codec.rs:32-71 | every result a server can print decodes with all its fields, whatever the padding |
| Codec.PrintDecoded | src/protocol/codec.rs:32-71 | a header that decodes is the printed header of its result |
| Codec.DecodeFailsExactly | src/protocol/codec.rs:12-71 | exactly which headers do not decode, and why: magic, version, or a type that is none of 0, 1, 2 and 5 |
| ResponseStream.ReadLoop | src/blocking/connection.rs:161-210 | the reader's loop computes the recursive reading of any byte stream and how it ends |
| ResponseStream.Reassembly | src/blocking/connection.rs:161-191 | whole frames followed by part of another deliver exactly the whole ones in order; where the cut falls decides which failure branch runs |
| ResponseStream.TruncatedStream | src/blocking/connection.rs:161-191 | a stream cut at any byte delivers exactly the frames that end at or before the cut |
| ResponseStream.WholeFramesExactly | src/blocking/connection.rs:161-191 | the number of frames within the first k bytes, from their lengths |
| ResponseStream.WholeStream | src/blocking/connection.rs:223-230 | lock data is stored as four zero bytes and the payload, for every payload |
| ResponseStream.ReadsOnePrinted | src/protocol/codec.rs:73-76 | what a server prints for a result is read as one delivery: data, four zero bytes and the payload, exactly for lock and unlock results with bit 0x20 of their flag byte, and the bytes after it are left |
| ResponseStream.PrintedStream | src/blocking/connection.rs:161-191 | a stream of printed results, cut anywhere in the next, is read back result by result, data and all |
| ResponseStream.RouteMeaning | src/blocking/connection.rs:202-210 | routing gives an id the first answer that carries it, and nothing if there is none |
| Routing.DeliveryIsRouting | src/blocking/connection.rs:202-210 | delivering any list of frames through the pending map leaves each waiter's channel with exactly the result routed to its id and its entry gone, or empty and its entry kept |
| Routing.OthersGetNothing | src/blocking/connection.rs:202-210 | nothing is ever sent to a call that owns no entry |
| Routing.FramesAreDeliveries | src/blocking/connection.rs:161-210 | the steps of the machine's reader, undisturbed, are that delivery |
| Routing.ReaderAnnounces | src/blocking/connection.rs:177-191 | on every stream the reader hands over data exactly with the headers that announce it |
| ResponseStream.ArrivalOrderIrrelevant | src/blocking/connection.rs:161-210 | with distinct ids every permutation of the responses routes the same result to every id |
| Routing.WaitersSeeNoOrder | src/blocking/connection.rs:161-210 | and so, read from the byte stream and delivered through the pending map, leaves every waiter's channel with the same results and the map with the same ids |
| Connection.Connection.SendCommand | src/blocking/connection.rs:105-153 | whatever other threads do between its regions, the regions are the machine's steps from the closed check to the end the reply reports, and the call's entry is gone |
| CallOutcomes.ReplyTells | src/blocking/connection.rs:105-153 | for every interleaving: the reply is a timeout exactly when the wait ran out, an input-output error exactly when a write fell short, not-connected exactly when no writer was found, client-closed exactly when the flag was up or the sender is gone, an encoding error exactly when encoding failed, and a message exactly when that was the first one received |
| CallOutcomes.EndTells | src/aio/connection.rs:137-185 | the same for the end of any call, with cancellation overriding all |
| CallOutcomes.RunTells | src/blocking/connection.rs:105-153 | and on every run of the machine |
| CallOutcomes.WhatWaitersAreTold | src/blocking/connection.rs:163-220 | a drain after a broken header tells every waiter of an input-output error, a close or broken extra data that the client was closed |
| CallOutcomes.DrainTells | src/blocking/connection.rs:215-220 | a drain sends one message to every owner of an entry and to nobody else |
| CallOutcomes.FlagLetsCallsIn | src/blocking/connection.rs:45-107 | after an open has put the flag down a new call is let in, after a close has raised it none is |
| CallOutcomes.WriterLetsFramesOut | src/blocking/connection.rs:82-122 | after an open has connected a call's frame is the first on the new wire, after a close or a reader has taken the writer a call finds none |
| Connection.Connection.Exchange | src/blocking/connection.rs:110-114 | the entry is inserted before the frame is written |
| Connection.Connection.WriteFrame | src/blocking/connection.rs:116-138 | no writer, a write error after any number of bytes, or the whole frame, and the exit of each |
| Connection.Connection.Receive | src/blocking/connection.rs:140-152 | a message, a timeout that removes the entry, or a sender that is gone |
| Connection.Connection.Deliver | src/blocking/connection.rs:192-210 | the reader's region for a frame: one entry, that of the header's id, is removed and answered; an unknown id changes nothing |
| Connection.Connection.Drain | src/blocking/connection.rs:215-220 | in any order of the map every entry is removed and exactly its channel is told |
| Connection.Connection.Open | src/blocking/connection.rs:45-87 | nothing when there is a writer; else the flag goes down first, and the stream becomes the writer exactly when the init exchange is good |
| Connection.GoodInitExactly | src/blocking/connection.rs:67-79 | exactly which init answers are good, what the others are refused with, and the init type |
| Connection.Connection.Close | src/blocking/connection.rs:89-95 | the three regions of `close` in order, others in between |
| Connection.Connection.HeaderFailed | src/blocking/connection.rs:163-175 | the reader's header-failure branch: drain, then take the writer; nothing when closed on purpose |
| Connection.Connection.ExtraDataFailed | src/blocking/connection.rs:177-187 | the reader's extra-data branch: drain, and the writer stays |
| Connection.RegionIsStep | src/blocking/connection.rs:105-153 | with the mutexes free, a region of a call is a step of the machine among any other threads exactly when it is one alone |
| Connection.CloserRegionIsStep | src/blocking/connection.rs:89-95 | and a closer's region is the machine's step, enabled exactly in the order of the regions |
| Connection.OpenerRegionIsStep | src/blocking/connection.rs:45-87 | and an opener's region is the machine's step, enabled exactly in the order of the regions |
| Connection.ReaderRegionIsStep | src/blocking/connection.rs:161-210 | and a reader's region is the machine's step, enabled exactly where the reader's loop gets to it |
| Connection.PendingCleanup.Drop | src/aio/connection.rs:40-48 | an armed guard does what the machine's cancellation does to a call with its id, a disarmed one nothing |
| ConnectionGuarantees.RelyHolds | src/blocking/connection.rs:89-220 | every step of every other thread is one `send_command` is proved to tolerate |
| ConnectionGuarantees.RelyHoldsOverRuns | src/blocking/connection.rs:89-220 | and so is every run of such steps, which is what happens between two regions of a call |
| ConnectionGuarantees.RightRecipientAtMostOnce | src/blocking/connection.rs:192-210 | over every run, reconnects and cancellations included and with no assumption on ids, a channel receives at most one message, and an answer carries its request id in bytes 3 to 19 |
| ConnectionGuarantees.RightResult | src/protocol/codec.rs:32-71 | a decoded result names the request it is given to |
| ConnectionGuarantees.PendingMapExact | src/blocking/connection.rs:105-153 | with distinct ids in flight the map holds exactly the unanswered calls between insertion and exit, each under its id |
| ConnectionGuarantees.ExitRemovesEntry | src/blocking/connection.rs:117-152 | every exit after the insertion leaves the call's id out of the map |
| ConnectionGuarantees.NeverDisconnected | src/blocking/connection.rs:150-151 | with distinct ids the disconnected branch is dead |
| ConnectionGuarantees.CancelLeavesEntryExactly | src/aio/connection.rs:40-48 | a call cancelled at any await or inside its write leaves its entry exactly when its `try_lock` failed while it still owned one |
| NoStrandedWaiter.NobodyIsStranded | src/blocking/connection.rs:45-153 | for one open and any number of calls and closes begun before, during or after it: once the header-failure branch finished, or a close that took the writer after the open put it there, and as long as the open never connects, there is no writer, every waiting call can finish at once by a step that needs no mutex, and none can time out |
| NoStrandedWaiter.NobodyTimesOutLater | src/blocking/connection.rs:45-153 | and once the connection went down this stays so however the threads go on |
| NoStrandedWaiter.NobodyIsLeftBehind | src/blocking/connection.rs:45-175 | a run with one open that is not at risk at its connect and never takes the extra-data branch never strands a call |
| Overtaking.StrandsExactly | src/blocking/connection.rs:45-95 | for every run up to the open's connect: it can go on, without the extra-data branch, to a call that waits with its entry in and every other thread done, exactly when just after the connect the flag is up, every close has had its take, and a call is past its closed check or, with every close finished, has its entry in |
| Overtaking.StrandsAnyhowExactly | src/blocking/connection.rs:45-95 | the same with the extra-data branch allowed: exactly when every close has had its take, and the flag is down or the run is at risk |
| Overtaking.CloseOvertakesOpen | src/blocking/connection.rs:45-95 | for every command that encodes, a run of one open, one close and one call that ends with the other three threads done and the call waiting |
| LockOrder.CollideExactly | src/blocking/connection.rs:116-123 | a reader about to drain and a call about to look at the writer can block each other exactly when the writer is gone |
| LockOrder.LocksCanDeadlock | src/blocking/connection.rs:116-172 | for every command that encodes, a run of one open, one close and one call that gets there |
| LockOrder.OnlyWithAClose | src/blocking/connection.rs:89-94 | with one open it takes a close, and a writer that is gone |
| LockOrder.DeadlockIsForever | src/blocking/connection.rs:116-172 | however the other threads go on neither ever moves again, unless the call is an asynchronous one and is cancelled |
| NoStrandedWaiter.ReaderEndIsSafe | src/blocking/connection.rs:163-175 | with one open and no risk at its connect, a reader that ended by its header-failure branch or saw the flag up left nobody behind, or left that to a closer still under way |
| NoStrandedWaiter.ExtraFailureStrands | src/blocking/connection.rs:177-187 | in every state after the extra-data branch with nobody closing, every new call whose command encodes can go on to wait with its entry in and no reader left |
| NoStrandedWaiter.ReaderEndStrandsExactly | src/blocking/connection.rs:163-187 | for every run with one open, no closer and an ended reader: some call can come to wait unanswered exactly when the reader ended by the extra-data branch |
| WireOrder.WireIsTheCommands | src/blocking/connection.rs:116-131 | while no write fell short the wire is whole frames in writer-mutex order, and a server reads back exactly those commands |
| Replset.PassStopsAtFirstDecisive | src/blocking/replset.rs:303-339 | a pass goes on from a node exactly when it did not open or, with several nodes, answered with result code ten or failed with an input-output, not-connected or client-closed error; it ends with the answer of the first other node in ring order, or goes all the way round |
| Replset.JudgeTells | src/blocking/replset.rs:315-335 | what the scan does with each answer |
| Replset.PassRedirects | src/blocking/replset.rs:320-331 | the retry state after a pass is redirected exactly when some node before the stop answered |
| Replset.EarlierPassesInVain | src/blocking/replset.rs:303-353 | in every pass before the last every node of the set let the pass go on without a STATE_ERROR, and the deadline had not come |
| Replset.EndsRedirectedOrWoken | src/blocking/replset.rs:320-353 | the retry state a call ends with |
| Replset.SleepsToTheDeadline | src/blocking/replset.rs:346-351 | a sleep lasts 25 ms or up to the deadline, whichever comes first |
| Replset.RingVisitsOnce | src/blocking/replset.rs:310-312 | a pass from any start visits every node and none twice |
| Replset.RemembersLastState | src/blocking/replset.rs:319-323 | after a full pass the remembered STATE_ERROR is the last in ring order |
| Replset.RemembersLastError | src/blocking/replset.rs:328-333 | and the remembered error is that of the last node that failed |
| Replset.BoundedPasses | src/blocking/replset.rs:303-355 | with D left at the first deadline check a call makes at most ceil(D / 25 ms) + 1 passes |
| Replset.TimeoutErrorIsLastNodes | src/blocking/replset.rs:336-343 | a deadline error is that of the last node of the final pass, in which every node failed; the NotConnected fallback is dead |
| Replset.ReplyIsDecided | src/blocking/replset.rs:303-339 | any other reply is the answer of the first node of the last pass that let it not go on, and an accepted one makes that node active; or it is the last result with code ten of a pass that every node let go on, and the active index stays |
| Replset.OnlyAcceptMovesActive | src/blocking/replset.rs:285-290 | with no other caller the active index changes only by an accepted result, which with several nodes is no STATE_ERROR |
| ReplsetClient.ChooseNode | src/blocking/replset.rs:125-141 | the highest leader that opened, else the lowest node that opened, else the last error |
| ReplsetClient.LeaderIsBit | src/blocking/replset.rs:132 | a leader is a node with bit 0x04 of its init type |
| ReplsetClient.ReplsetClient.Open | src/blocking/replset.rs:121-148 | succeeds exactly when some node opened; on failure the index stays and the error is the last node's |
| ReplsetClient.ReplsetClient.ClientIndex | src/blocking/replset.rs:274-283 | the index looked up always exists, so the stand-in client is never made |
| ReplsetClient.ReplsetClient.UpdatePendingRetryType | src/blocking/replset.rs:364-374 | the search loop changes the first entry with the id |
| ReplsetClient.UpdatesTheFirst | src/blocking/replset.rs:364-374 | the first entry with the id gets the new state, and every other entry is as it was |
| ReplsetClient.ReplsetClient.RemovePendingCommand | src/blocking/replset.rs:376-381 | every entry with the id goes and the others keep their order |
| ReplsetClient.ReplsetClient.RunPass | src/blocking/replset.rs:311-335 | the inner loop computes the ring scan, moves the active index only on an accepted answer, and keeps the queue entry equal to the local copy |
| ReplsetClient.ReplsetClient.SendPendingCommand | src/blocking/replset.rs:303-355 | the deadline loop computes the recursive call, with other callers moving the index between passes |
| ReplsetClient.ReplsetClient.SendCommand | src/blocking/replset.rs:292-301 | no nodes and encode errors touch nothing; otherwise the call has the value of a lock command's timeout in seconds and the grace for it, and the queue ends as it was but for entries with its id |
| ReplsetRuns.StepIsLegal | src/blocking/replset.rs:320-353 | in every step of any caller the retry state stays or changes as the protocol allows, and id and deadline never change |
| ReplsetRuns.ActiveIndexInRing | src/blocking/replset.rs:274-290 | over every run of open, close and send by any number of callers the active index is unset or names a node |
| ReplsetRuns.AcceptedBecomesActive | src/blocking/replset.rs:325-327 | an answer that a caller accepts makes its node the active one and is what it returns |
| ReplsetRuns.OnlyStoreMovesActive | src/blocking/replset.rs:285-290 | nothing else that a caller does moves the active index |
| ReplsetRuns.QueueIsInFlightCalls | src/blocking/replset.rs:357-382 | with distinct ids the queue is at every step the unfinished calls in push order, each with its caller's own retry state and deadline |
| ReplsetRuns.FinishingTakesOneEntry | src/blocking/replset.rs:376-382 | a finishing caller takes out one entry, its own; the others keep their places |
| ReplsetRuns.RemovesExactlyTheId | src/blocking/replset.rs:376-382 | without distinctness, removal takes every entry with the id and only those |
| ReplsetProjection.RunIsCall | src/blocking/replset.rs:303-355 | whatever other callers do meanwhile to the queue and the active index, a caller is bound for the end of the sequential call in any environment that gives what it met, or has met it |
| ReplsetProjection.ReturnsAsTheCall | src/blocking/replset.rs:303-355 | and returns its reply, with its retry state, in its last pass |
| ReplsetCallers.EnvironmentExists | src/blocking/replset.rs:303-355 | such an environment exists for every run whose deadline checks come a full sleep apart |
| ReplsetCallers.CallerIsSequential | src/blocking/replset.rs:303-355 | so every caller of such a run returns what the sequential call does |
| ReplsetCallers.CallerPassesBounded | src/blocking/replset.rs:340-351 | however the others interleave, a caller with D left at its first deadline check makes at most ceil(D / 25 ms) + 1 passes |
| ReplsetCallers.CallerTimesOutWithLastError | src/blocking/replset.rs:336-343 | a caller that gives up at its deadline tried every node of its last pass in vain and returns the error of the last one in ring order from where that pass began |
| Locks.LocksSendWellFormed | src/blocking/primitives.rs:83-117 | whatever a lock sends, its data flag matches its data, so a server recovers it |
| Locks.RequestOnTheWire | src/blocking/primitives.rs:184-208 | type 1 or 2, request id, flag byte, database, lock id, key, times, count and reentry count, each in its place of the header |
| Locks.FlagForIsBits | src/blocking/primitives.rs:88-92 | data raises bit 0x20 of the flag byte and leaves the others alone |
| Locks.TimeoutIsItsValue | src/protocol/command.rs:184 | a lock waits for the value of its packed timeout, whatever flags are packed with it |
| Locks.PackedTimeBytes | src/time.rs:9-11 | on the wire a packed time is its value and then its flags, each low byte first |
| Locks.OutcomeByCode | src/blocking/primitives.rs:204-224 | what a caller sees for each result code, for an answer that is no lock result and for an error |
| Locks.Lock.SendLock | src/blocking/primitives.rs:184-208 | one command with the lock's fields and the given id is sent and its answer read |
| Locks.Lock.ReleaseHead | src/blocking/primitives.rs:134-148 | the release of the first holder: the zero id, the flag for it, and what is returned and remembered |
| Locks.Lock.ApplyResult | src/blocking/primitives.rs:210-224 | the data is remembered for every result code, and the code decides the error |
| Locks.Lock.AcquireWithFlags | src/blocking/primitives.rs:83-95 | what is sent, what is returned and what is remembered, for every answer |
| Locks.Lock.ReleaseWithFlags | src/blocking/primitives.rs:105-117 | the same for a release |
| Locks.CompensationLaw | src/blocking/primitives.rs:808-863 | for any number of check locks and any answers, a failing acquire releases exactly the checks that the server granted (code 0) or said are held (code 5), in that order, by the same key and id, and returns the outcome of the last acquire; a successful one releases nothing |
| Locks.TriesInOrder | src/blocking/primitives.rs:808-863 | the checks and then the leaf are tried in order, going on from a check exactly when the server granted it or said it is held; so the leaf is tried exactly when that holds of every check |
| Locks.RunWithTwoChecks | src/blocking/primitives.rs:808-863 | the law spelled out for a child: what is sent and released in each case, child check first |
| Locks.TreeLeafLock.CheckLock | src/blocking/primitives.rs:813-822 | a check lock keeps its sixteen-byte key, waits for nothing and carries the priority flag |
| Locks.ChecksOfChild | src/blocking/primitives.rs:812-841 | field by field: first the child's key under the parent's id with the tree flag 0x10, then the parent's key under the child's id with none; no wait, the priority flag, the tree's expiry, count 0xffff |
| Locks.TreeLeafLock.Acquire | src/blocking/primitives.rs:808-863 | for every sequence of answers the method sends and returns what the law speaks of, child check first; the leaf's data changes only when the leaf was tried |
| ReadLocks.ReadWriteLock.AcquireRead | src/blocking/primitives.rs:449-455 | a fresh id, one command, and a push exactly when it was granted |
| ReadLocks.ReadLockFields | src/blocking/primitives.rs:449-452 | field by field: the lock's key and times, the fresh id, count 0xffff |
| ReadLocks.ReadWriteLock.ReleaseRead | src/blocking/primitives.rs:457-463 | pops the top whatever the server answers; on an empty stack an error and nothing sent |
| ReadLocks.ReleasesLatestRead | src/blocking/primitives.rs:449-463 | over every run each release undoes the latest granted read not yet offered for release, and every read granted after it was released before it |
| ReadLocks.NoReadIsReleasedTwice | src/blocking/primitives.rs:449-463 | no lock id is ever unlocked twice |
| ReadLocks.HeldReadsExactly | src/blocking/primitives.rs:449-463 | the stack is exactly the granted reads not yet offered for release, earliest first |
| ReadLocks.RefusedExactlyWhenAllReleased | src/blocking/primitives.rs:457-461 | a release sends nothing exactly when every granted read was offered for release |
| ReadLocks.FreshIdsAreOwn | src/blocking/primitives.rs:449-455 | drawing a new id for every read is all these need |
| TokenBuckets.TokenBucketFlow.constructor | src/blocking/primitives.rs:532-550 | the lock built step by step has the packed expiry and the saturated count |
| TokenBuckets.NeverShorterExactly | src/blocking/primitives.rs:539-548 | with any default flags but the two that change the unit, the expiry is at least the period exactly when the period is at most 65535 seconds |
| TokenBuckets.OvershootUnderOneUnitExactly | src/blocking/primitives.rs:539-548 | with any such flags it exceeds the period by less than one unit exactly when the period is positive |
| TokenBuckets.ExpiryIsMonotone | src/blocking/primitives.rs:539-548 | with any such flags a longer period never gives a shorter expiry, across the change of unit too |
| TokenBuckets.MillisecondDefaultShortensExactly | src/time.rs:29-31 | with any default flags that have the millisecond flag, periods of three seconds and more, and only those, are cut short |
| Locks.UnpackTime | src/time.rs:9-23 | value and flags of a packed time come back |
| TokenBuckets.ExpiryFlags | src/time.rs:29-31 | the flags are the default ones, with 0x0400 set below three seconds |
| TokenBuckets.CountFor | src/blocking/primitives.rs:545 | a lock's count is one less than the holders it admits, and not below nought |

## Left out

- Sockets, name resolution, keep-alive, starting threads and futures: the stream is a byte sequence, a write has an outcome,
  an opened node gives an init type or an error.
- Open: connecting, and writing and reading the init exchange, are one outcome, a header or an error.
- Deadlock freedom, which does not hold (`LockOrder`); what is proved about the connection is otherwise safety.
- NobodyIsStranded: a second open is excluded, because `open` clears a flag an old reader still looks at. A call that holds
  the writer mutex and is blocked by the reader is no waiting call.
- RightRecipientAtMostOnce: a channel of the standard library is the list of messages sent into it.
- SendCommand: of the replica-set client, as for RunPass. Of the connection, the timeout's length is not modelled; a
  waiting call may time out whenever its channel is empty and its entry is still its own.
- The client id and init type kept by a connection.
- BoundedPasses: the clock and the sleeps are parameters that never go back and never end early.
- RunPass: `close` on a lost node is not recorded; the node's next answer may be anything anyway. In the class no other
  caller touches the queue or the index during a pass; callers that do are the subject of the machine in `ReplsetRuns`, whose
  callers are proved to compute the same call.
- SendPendingCommand: the same, but that other callers may move the index between passes.
- CallerPassesBounded: the clock never goes back between a caller's deadline checks and its sleeps never end early.
- QueueIsInFlightCalls: stated for the blocking client; a cancelled asynchronous call skips its removal
  (src/aio/replset.rs:296-299).
- `ping` of the replica-set client, node-list parsing and the other forwarding members.
- `src/aio/replset.rs` and `src/aio/primitives.rs`, twins of the blocking files; the asynchronous connection is modelled
  by the cancel steps of the machine. A cancelled asynchronous `close` or `open` is not modelled.
- `api.rs`, `client.rs`, `database.rs`, `handle.rs`, `options.rs` and `error.rs`, which forward calls or define types; error
  texts are an enumeration.
- What the server does with a command: a backend may answer anything.
- EncodesExactly: sequences have no maximal length, so the 64-bit overflow of a length cannot happen.
- MapRoundTripExactly: keys are valid UTF-8 byte strings instead of `String`s, and validity is a parameter.
- KeyIsPaddedOrHashed: MD5 is a parameter.
- New: the clock and the random source are parameters.
- ConnectionIdsAreDistinct: which draw of the generator a call got is a parameter, for the draws of every thread are one
  sequence.
- Acquire: request ids of the commands are not part of the trace, and the database's default flags are fixed while a lock
  is in use.
- AcquireRead: the write side, which forwards to one lock, is not modelled.
- NeverShorterExactly: periods are real numbers, so rounding, infinities and NaN of `f64` are not captured; a default
  minute flag, which makes every period from three seconds on count in minutes, is excluded.
- `Event`, `GroupEvent`, `Semaphore`, `ReentrantLock`, `PriorityLock`, `MaxConcurrentFlow` and `TreeLock`, which map one call
  to one or two commands.
