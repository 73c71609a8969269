# StuCan public protocol node, in Dafny

This project models the Xcom-CAN public protocol node of the `xcomcan`
package and the parts of its client facade built on top of it:

- **Frame identifiers.** The 29-bit extended CAN identifier holds the destination address (10 bits), the source address (10 bits), the service id (3 bits) and 6 flag bits, whose lowest bit marks an error reply (module `Identifier`).
- **Payloads.** Each service class has a fixed big-endian `struct` layout. `struct.pack`/`struct.unpack` are modelled for the four format characters the protocol uses: `H`, `B`, `I` and `f` (modules `BigEndian`, `Struct`, `Services`). A float field is an opaque 4-byte word.
- **Protocol errors.** An error reply carries a `'>HI'` payload holding a service id and an error code. A fixed table gives each listed code a label; every other code is `UNKNOWN` (module `Errors`).
- **Receive path.** `handle_rx_frame` applies the destination filter (own address or the RCC group address 500). It then matches the service id against the registered classes in registration order, splits error replies from success replies, and calls the handler (module `Node`).
- **Correlation.** There is one slot per request kind: the last stored response or error, plus a count. Response handlers write the slot; `wait_response` reads it. All request kinds share a single condition variable. The message notification handler appends to a log that `messages()` returns (modules `Node`, `Correlation`).
- **Client.** `__enter__` registers four classes. `read_user_info`, `write_parameter`, `read_parameter` and `messages` are projections of `wait_response` and of the log (module `Client`).

Threads are replaced by a sequential account:

- The frames the bus delivers while a caller waits are an explicit input sequence.
- A timeout means those frames ran out without a notification.
- The driver is a list of sent frames inside the node state.

Module `Scenarios` works through a client at address 1 reading parameter 1286 from the device at address 101. It covers three outcomes: a success reply, an error reply, and no reply.

The model follows the code as written:

- A single slot per kind.
- A count that a late or repeated response drives below zero.
- Late responses that overwrite the slot, and can therefore answer the next call of the same kind.
- A late response of one kind that wakes a caller waiting on another kind.

## Model

| member | source | states |
|---|---|---|
| Identifier.Build | xcomcan/node.py:335-338 | The identifier exists exactly when the service id is at most 7 and both addresses are at most 0x3FF. Out-of-range values are rejected, never wrapped. A built identifier is below 2^29 and has all six flag bits clear. |
| Identifier.Parse | xcomcan/node.py:294-300 | The receive-side fields are always within their bit widths. The error flag is bit 0 of the identifier, which is also the lowest flag bit. |
| Identifier.ParseBuild | xcomcan/node.py:294-300 | Parsing a built identifier gives back destination, source and service id, with flags 0 and error 0. |
| Identifier.ParseBuildFlags | xcomcan/node.py:294-300 | A built identifier with any 6-bit flags added parses back to the three fields and those flags, with their lowest bit as the error flag. |
| Identifier.BuildParse | xcomcan/node.py:294-300 | Any identifier below 2^29 equals its parsed fields rebuilt plus its flag bits, so the receive-side split loses nothing. |
| Struct.Pack | xcomcan/node.py:58-59 | Packing succeeds exactly when there is one value per format character and each fits: an integer in range for an integer character, a 4-byte word for `f`. Success yields `calcsize` bytes. |
| Struct.Unpack | xcomcan/node.py:304 | Unpacking succeeds exactly when the data has `calcsize` bytes. The values it yields always fit the format. |
| Struct.UnpackPack | xcomcan/node.py:58-59 | Unpacking packed values returns the same values. |
| Struct.PackUnpack | xcomcan/node.py:304 | Packing unpacked values returns the same bytes. |
| Services.FormatWidth | xcomcan/node.py:49-208 | The layouts `'>H'`, `'>Hf'`, `'>HBf'`, `'>HB'` and `'>HI'` have `calcsize` 2, 6, 7, 3 and 6 bytes, matching the per-class widths. |
| Services.Encode | xcomcan/node.py:40-208 | `bytes(service)` succeeds exactly when every integer field is in range: ids as u16, parts as u8, message values as u32. The payload then has the class's width, at most 8 bytes. |
| Services.Decode | xcomcan/node.py:311 | Decoding for a class succeeds exactly on a payload of that class's width. It yields a service of that class with every field in range. |
| Services.DecodeEncode | xcomcan/node.py:311 | Decoding an encoded service with its own class returns the service. Integers come back as numbers; a float comes back as the same four bytes. |
| Services.EncodeDecode | xcomcan/node.py:58-59 | A decoded payload encodes back to the same bytes. |
| Services.ServiceIdsAgree | xcomcan/node.py:44-188 | The request and response of one kind share a service id. A response's id is shared with no class other than its own request. |
| Errors.DecodeError | xcomcan/node.py:304-305 | An error payload decodes exactly when it is 6 bytes long. The id is its first two bytes big-endian, the code its last four, and the label is the table's category for the code. |
| Errors.DecodeEncodeError | xcomcan/node.py:304-305 | A `'>HI'` error payload built from a u16 id and a u32 code decodes to that id and code, labelled by the table. |
| Errors.Category | xcomcan/node.py:254 | A listed code gets its label from the error table, and the label is `UNKNOWN` exactly when the code is not listed. |
| Node.ResponseHandle | xcomcan/node.py:30-37 | The result is stored in its kind's slot and that slot's count drops by one. Notification happens exactly when the count was 1, so the count can go below zero. Other kinds' slots are unchanged. |
| Node.NotificationHandle | xcomcan/node.py:210-211 | The log grows by exactly one record `(source, message)` at its end, and earlier records keep their place. |
| Node.HandleWith | xcomcan/node.py:303-313 | One matching class handles the frame. It succeeds exactly when the payload is 6 bytes long if the error flag is set, and the class width otherwise. A message notification only appends to the log, recording an empty message for an error frame. A response handler leaves the log alone. |
| Node.Dispatch | xcomcan/node.py:301-315 | The loop over the registered classes changes nothing but slots and log, and only extends the log. When no class has the frame's service id, nothing changes and no one is notified. Well-typed state stays well typed. |
| Node.HandleRxFrame | xcomcan/node.py:294-302 | A frame addressed to neither the node nor address 500 is dropped without any change. So is a frame whose service id no registered class has. |
| Node.Receive | xcomcan/node.py:280-315 | Handling frames one after another only changes slots and log, and the old log stays a prefix. |
| Node.DispatchUnique | xcomcan/node.py:301-302 | When exactly one registered class has the frame's service id, the loop amounts to that class's handler alone. |
| Node.RouteTo | xcomcan/node.py:294-302 | For a registry with distinct ids, an accepted frame is handled by the one class its service id names. |
| Node.ReceiveResponse | xcomcan/node.py:310-313 | A well-formed success reply stores its decoded response in its kind's slot and decrements the count. It notifies exactly when the count was 1, and leaves other slots and the log unchanged. |
| Node.ReceiveError | xcomcan/node.py:303-309 | An error reply stores the protocol error, with the payload's id, code and label, in the slot picked by the frame's service id. The payload's id plays no part in the choice. |
| Node.ReceiveNotification | xcomcan/node.py:210-211 | A 6-byte message frame appends `(source, message)` to the log and touches no slot. With the error flag set, the logged message is empty. |
| Node.ReceiveMalformed | xcomcan/node.py:303-311 | A payload of the wrong length for the matching class raises before any handler runs, and nothing changes. |
| Node.EntriesAreRecords | xcomcan/node.py:198-211 | On a run of well-formed, error-free message frames, the general log entries are one record per frame: its source and decoded notification. |
| Node.MessagesInArrivalOrder | xcomcan/node.py:198-211 | Receiving a run of message frames appends exactly one record per frame, in arrival order, and leaves every slot as it was. On such a run the general log entries are exactly these records (Node.EntriesAreRecords). |
| Node.SendFrom | xcomcan/node.py:317-339 | Sending succeeds exactly when service id and both addresses are in range, and fails with an assertion error otherwise. On success the driver gets one extended frame with the same payload and an identifier below 2^29 that parses back to the three fields. |
| Node.SendService | xcomcan/node.py:358-373 | Sending a service fails with a struct error for an out-of-range field, and with an assertion error for an out-of-range address. On success one frame is sent from the node's own address with the class's service id. Its payload is at most 8 bytes and decodes back to the service. |
| Node.Await | xcomcan/node.py:397 | While waiting, frames are handled in order. Only slots and log change, and the old log stays a prefix. The frames not yet handled form a suffix of the input. Without a notification every frame is handled. |
| Node.AwaitWakesIffNotified | xcomcan/node.py:395-399 | The wait wakes exactly when some frame, handled after all frames before it, notifies. |
| Node.AwaitWakesAtFirst | xcomcan/node.py:395-399 | A wait that wakes stops at the first notifying frame. The node is the state right after handling it, and the pending frames are exactly those after it. |
| Node.QuietFramesKeepSlot | xcomcan/node.py:30-37 | While a kind's count is 1, frames that do not notify leave that kind's slot unchanged. |
| Node.Begin | xcomcan/node.py:393-394 | Waiting starts by setting the kind's count to 1, whatever it was. The stored response and all other state are kept. |
| Node.Finish | xcomcan/node.py:397-402 | Without a notification the outcome is `Timeout`. Otherwise the kind's slot decides: a stored error is raised, a stored response returned. An empty slot gives the missing-attribute failure. |
| Node.WaitResponse | xcomcan/node.py:375-402 | The send fails exactly when the request or an address is out of range, leaving the count at 1 and nothing sent. Otherwise the request is on the bus and decodes back to itself. A raised error or returned response is exactly what the kind's slot holds. A returned response is of the request's own response class. When it times out is stated by Correlation.WaitTimesOutIffQuiet. |
| Correlation.Posted | xcomcan/node.py:393-396 | While the caller waits, the kind's count is 1 and its stored response is kept. The log, the other slots, the address and the registry are unchanged. |
| Correlation.WaitTimesOutIffQuiet | xcomcan/node.py:395-399 | A sent request times out exactly when no frame delivered during the wait notifies. |
| Correlation.WaitEndsAtFirstNotification | xcomcan/node.py:395-402 | At the first notifying frame the call does not time out. Its node is the state right after that frame, and the later frames stay pending. |
| Correlation.AnsweredAfterQuietFrames | xcomcan/node.py:393-402 | A matching success reply preceded only by frames that do not notify makes the call return exactly that reply. The frames after it stay pending. |
| Correlation.RaisedAfterQuietFrames | xcomcan/node.py:400-401 | A matching error reply preceded only by frames that do not notify makes the call raise the protocol error with the payload's id, code and label. The frames after it stay pending. |
| Correlation.AwaitForeign | xcomcan/node.py:294-296 | Frames for other destinations never wake the waiter and change nothing. |
| Correlation.ForeignFramesTimeOut | xcomcan/node.py:397-399 | With no frame for this node, the call times out. The only trace is the count set to 1 (and the request sent). |
| Correlation.AnsweredByResponse | xcomcan/node.py:393-402 | A matching success reply as the first frame makes the call return exactly that reply. The count goes back to 0 and later frames stay pending. |
| Correlation.AnsweredByError | xcomcan/node.py:400-401 | A matching error reply as the first frame makes the call raise the protocol error with the payload's id, code and label. |
| Correlation.LateResponsesOverwrite | xcomcan/node.py:30-37 | After a timeout, the first late reply overwrites the slot and brings the count to 0 with a notification. A second one overwrites it again and brings it to -1 without one. |
| Correlation.StaleResponseAnswersNextCall | xcomcan/node.py:393-402 | A reply that arrives after its caller timed out answers the next call of the same kind instead of that call's own reply. |
| Correlation.LateResponseWakesOtherKind | xcomcan/node.py:13-17 | One condition is shared by all request classes, so a late reply of one kind wakes a caller waiting on another kind. That caller then gets whatever its own slot held before the call. |
| Client.Enter | xcomcan/client.py:66-81 | `__enter__` gives a node at the client's source address with the four classes registered in order, every slot empty with count 0, an empty log and nothing sent. The empty slots and log hold only for the first node created in the process. |
| Client.ClientRegistry | xcomcan/client.py:76-79 | The client registers exactly four classes, with service ids 0, 2, 1 and 3 in that order. The ids are pairwise distinct and cover every response kind and message notification. For the first node created in the process, the log is empty and nothing is sent. |
| Client.ReadUserInfo | xcomcan/client.py:146-148 | Sends `ReadUserInfoRequest(info_id)`. On a well-typed node it fails exactly when the wait does not return a response, with the wait's own error. Otherwise it yields the response's value. |
| Client.WriteParameter | xcomcan/client.py:208-210 | Sends `WriteParameterRequest(parameter_id, part, value)` and yields the response's parameter id. Failures are the wait's own, unchanged. |
| Client.ReadParameter | xcomcan/client.py:295-297 | Sends `ReadParameterRequest(parameter_id, part)` and yields the response's value. Failures are the wait's own, unchanged. |
| Client.WriteParameterReturnsId | xcomcan/client.py:208-210 | When a matching reply comes first, the call returns that reply's parameter id, not the value written. The frame sent carries the id, part and value written. |
| Node.FrameLogged | xcomcan/node.py:294-315 | Any frame adds exactly its log entry: one record for an accepted 6-byte message frame (no content when the error flag is set), nothing for any other frame. |
| Node.ReceiveLogged | xcomcan/node.py:210-211 | For any mix of frames, the log grows by exactly the entries of the message frames, in arrival order. |
| Node.Messages | xcomcan/node.py:404-413 | `messages()` has one record per log entry. For a well-typed node each record holds a message notification, or nothing for an error-flagged frame. Its contents after receiving frames are stated by Node.MessagesAfter. |
| Node.MessagesAfter | xcomcan/node.py:404-413 | After any mix of frames, `messages()` is the earlier log followed by the entries of the accepted message frames, in arrival order. |
| Client.ClientMessages | xcomcan/client.py:299-335 | The client's `messages()` is the node's log, unchanged and in the same order. For a well-typed node each record holds a message notification, or nothing for an error-flagged frame. |
| Client.ClientLogsMessages | xcomcan/client.py:335 | For any mix of frames, the `messages()` of the first client in the process is exactly one record per accepted message frame, in arrival order. |
| Scenarios.RequestOnTheBus | xcomcan/node.py:335-339 | Reading parameter 1286 (flash part) from address 101 as client 1 does not fail to send. It puts identifier 52953664 with payload `05 06 00` on the bus. |
| Scenarios.ReplyDecodes | xcomcan/node.py:311 | The reply payload `05 06 00 43 66 00 00` decodes to parameter 1286, part 0, float word `43 66 00 00` (230.0). |
| Scenarios.ReadParameterAnswered | xcomcan/client.py:295-297 | With that reply the read returns the float word `43 66 00 00`. |
| Scenarios.ReadParameterRefused | xcomcan/node.py:300-305 | An error reply with payload `00 01 00 00 00 02` makes the read fail with protocol error (1, 2, `DEVICE_NOT_FOUND`). |
| Scenarios.ReadParameterTimesOut | xcomcan/node.py:397-399 | With no reply the read fails with `Timeout`. |
| Scenarios.ErrorPayloadBytes | xcomcan/node.py:304 | The `'>HI'` payload of id 1 and code 2 is `00 01 00 00 00 02`. |

## Left out

- Threads, the condition variable and real time: the receive thread is the explicit frame sequence and the timeout is its end. `start`, `stop` and `join` are not modelled.
- `stucancommon` (`CanNode`, `Service`, `Timeout`, the driver) is not part of this model. Its effects are modelled as follows:
  - `from_bytes` is taken to be an unpack of exactly the class's `PACK_FORMAT` width.
  - The driver's `send` appends to the node's list of sent frames.
  - A slot never written holds no response and a count of 0. Reading it gives the client's missing-attribute failure (`NoResponse` / `AttributeError`).
  - An exception raised inside `handle_rx_frame` ends that frame's dispatch with `raised` set and keeps what earlier handlers did.
  - `Node.Receive` and `Node.Await` go on to the next frame after such a frame. This assumes the `stucancommon` receive thread survives the exception, which is not part of this model.
- `handle` of request classes (from `Service`) is not modelled. Registered classes are restricted to response classes and message notification, as the client registers them.
- IEEE-754 conversion: float fields are opaque 4-byte words. The range checks `struct.pack` applies to floats are not modelled.
- Struct.Pack: an integer given for an `f` field is rejected, where `struct.pack` converts it to a float. No service field passes one, since float conversion is not modelled.
- Logging and the `debug` flag: output only.
- The `dlc`, `flag` and `time` parameters of `handle_rx_frame` are unused by the code and not modelled.
- Node.WaitResponse: the model assumes a finite `timeout`, which ends the wait at the end of the frames given. The client methods pass one, 1 second by default. With `timeout=None`, the default of `wait_response` itself, Python waits until notified and never raises `Timeout`. The model does not represent that call, and `Correlation.WaitTimesOutIffQuiet` does not describe it.
- Python `assert` statements are taken as enabled. Under `python -O` the send path would not check addresses or the 8-byte bound.
- `messages()` returns the live class-level list, so a caller's copy later shows new records and a caller's change alters the log. The model returns the log as a value, and this aliasing is not modelled.
- Class attributes (`response`, `response_count`, the message log) are shared by every node in the process. The model gives each node its own. This is the same only for the first node created in the process. A second client in the same process starts with the first one's slots and log, so `Client.Enter`, `Client.ClientRegistry` and `Client.ClientLogsMessages` do not describe it.
- `addresses.py` apart from `RCC_GROUP_DEVICE_ID` and the four parameter-part values; the examples and packaging.
