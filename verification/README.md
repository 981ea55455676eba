# iBridger, modelled and verified in Dafny

iBridger is a local RPC stack with a C++ and a TypeScript SDK: a byte stream over a Unix socket,
length-prefixed frames on it, one protobuf `Envelope` per frame, and a client and a server on top.
This project models each layer of both SDKs and proves what the layers promise each other, ending in
the promise the client makes to its callers: a request is dispatched at most once, and the result of
`call` says how often.

How the modules build on each other:

- `Frames` is the wire format and the functional parser that both receivers are proved against.
  `CppFraming` holds the C++ transport and framing as classes over a scripted file descriptor;
  `JsSocket` and `JsFraming` hold the event-driven TypeScript ones, and `JsReceives` what each call of
  the TypeScript receiver comes to.
- `Protobuf`, `Envelopes`, `EnvelopeLaws` and `EnvelopeCode` hold the generated codec: wire primitives,
  what encode and decode compute, the laws of the codec, and the imperative code proved to compute it.
  `Utf8` is what the C++ parser asks of strings, `CppCodec` the C++ codec, and `Interop` how the
  codecs of the two SDKs read each other.
- `Dispatcher` is the dispatch of both servers, `ServerLoop` the C++ request loop, `JsServer` the
  TypeScript one, and `JsServes` what keeps that one going.
- `Exchanges` is what the request loops of both SDKs have in common, and `Receivers` compares the two
  receivers.
- `RpcConn`, `RpcRun`, `RpcBase`, `RpcIds`, `RpcSteps` and `RpcTheorems` hold the C++ client shared by
  any number of threads, together with the handlers it talks to, as one step system: its steps, its
  invariant, and the theorems over every run. `RpcAccount` is the account of calls and of what their
  requests carry, `RpcRetries` and `RpcLimits` how requests are sent again, `RpcCauses` what an error
  says. `RpcWitness` and `RpcReconnect` hold the runs that show that calls succeed, also after
  reconnecting, and that the theorems cannot be sharpened; `RpcProgress` that no caller is stuck.
  `ClientCall` is the same client as a class, seen by one of its threads.
- `ServerLifecycle` is the C++ server's accept loop, handlers and `stop` over every interleaving, and
  `ServerCode` their critical sections as methods; `ServerService` is what keeps the server in
  service, `ServerShutdown` whether `stop` can return.
- `JsClient` is the TypeScript client's calls and what they write, `JsCorrelation` what they return,
  `JsProgress` which calls begin and that they come to their end; `Backoff` is the reconnect delays of
  both SDKs.

What is assumed of the environment: a send of a positive length accepts at least one byte or fails
having accepted none; bytes on a connection arrive in order and may be cut off at any point; request
ids stay below 2^64; the C++ steps are the stretches between two points where the mutex is free or
the kernel moves bytes; a TypeScript step is what runs between two awaits; no data event follows the
close or the destruction of a socket, and a socket on which a write failed accepts nothing more.
Whether the close of a descriptor wakes a thread blocked on it is not assumed either way.
`Reader` and `Writer` of the protobuf runtime are not in the repository; their contracts are those of
the Protocol Buffers Encoding specification, sections "Base 128 Varints", "Length-Delimited Records",
"Maps", "Last One Wins" and "Groups".

Where the code and docs/WIRE_PROTOCOL.md differ, the model follows the code: neither SDK closes the
connection on a mismatched response id (docs/WIRE_PROTOCOL.md:76-78) and recv_frame itself does not
close it on an oversized frame (:42); a malformed request is not answered with INVALID_ARGUMENT but
ends the server's loop (:142); a zero-length frame reaches the server's decoder as an empty request
and is answered (:40); request ids count per client and not per connection (:87); an expired
TypeScript call leaves the connection open (:131). A C++ call that sleeps while another thread connects is
refused, unlike the TypeScript call it is said to mirror (sdk/cpp/core/src/rpc/client.cpp:116-117).

## Model

| member | source | states |
|---|---|---|
| Frames.HeaderRoundTrip | sdk/cpp/core/src/protocol/framing.cpp:22-29 | The four header bytes give the length back, for every 32-bit length. |
| Frames.HeaderUnique | sdk/cpp/core/src/protocol/framing.cpp:56-59 | Every four bytes are the header of exactly one length. |
| Frames.ParseOneComplete | sdk/cpp/core/src/protocol/framing.cpp:49-76 | A receive yields a payload if and only if the stream starts with the frame of that legal payload, and leaves what follows it. |
| Frames.CutFrameIncomplete | sdk/cpp/core/src/protocol/framing.cpp:89-104 | A frame cut at any byte is never read, not even in part, and never rejected for its size. |
| Frames.ParseAllConserves | sdk/cpp/core/src/protocol/framing.cpp:49-76 | The frames received and the bytes not received make up the stream: nothing is lost, invented or reordered. |
| Frames.ParseStream | sdk/js/src/protocol/framing.ts:15-41 | Receiving what was sent for a list of legal payloads gives the list, whatever bytes come after it. |
| Frames.PrefixSafety | sdk/cpp/core/src/protocol/framing.cpp:17-59 | Any byte prefix of a stream of legal frames parses to a prefix of the payloads and a strict prefix of the next frame. |
| Frames.StreamInjective | sdk/js/src/protocol/framing.ts:15-28 | Unique decodability: two lists of legal payloads with the same bytes are equal. |
| Frames.ParseAllExtends | sdk/js/src/protocol/framing.ts:30-41 | More bytes never change the frames already parsed. |
| CppFraming.UnixSocketConnection.Send | sdk/cpp/core/src/transport/unix_socket_transport.cpp:24-45 | Under every schedule of partial writes and signals: exactly a prefix is accepted, all of it on success and not all of it on failure; the connected flag falls exactly on failure, and the error is that of the system call that failed. |
| CppFraming.UnixSocketConnection.Recv | sdk/cpp/core/src/transport/unix_socket_transport.cpp:47-63 | The next bytes of the stream are stored at the offset and nothing else of the buffer changes; 0 bytes without an error means EOF; the flag falls exactly when nothing was read, and the error is that of the system call that failed. |
| CppFraming.UnixSocketConnection.Close | sdk/cpp/core/src/transport/unix_socket_transport.cpp:65-70 | The descriptor is released if and only if no error and no EOF came before: after one of those it stays open. |
| CppFraming.FramedConnection.SendFrame | sdk/cpp/core/src/protocol/framing.cpp:17-44 | Rejected for its size before any byte is written, or written as a whole frame, or failed after a strict prefix of the frame. |
| CppFraming.FramedConnection.ReadExact | sdk/cpp/core/src/protocol/framing.cpp:92-104 | Fills the buffer with exactly the next n bytes under every schedule of partial reads; reports a reset exactly when fewer than n bytes come before EOF. |
| CppFraming.FramedConnection.RecvFrame | sdk/cpp/core/src/protocol/framing.cpp:49-76 | Refines the frame parser: payload, error and bytes left unread are those of one parse step unless a system call failed, whose error is then returned; a partial payload is never returned. |
| CppFraming.ReceiveUntilError | sdk/cpp/core/src/protocol/framing.cpp:49-104 | For every stream and every schedule, failing reads included, what is returned is the first frames of the parser; when no read failed it is all of them, and the error says whether the stream is oversize or cut short. |
| JsSocket.UnixSocketConnection.DrainWaiters | sdk/js/src/transport/unix-socket.ts:96-103 | The loop resolves pending reads from the front for as long as the buffer suffices, as the abstract drain does. |
| JsSocket.UnixSocketConnection.OnData | sdk/js/src/transport/unix-socket.ts:21-24 | Keeps byte conservation with the chunk added to what arrived, and leaves no pending head read that the buffer could serve. |
| JsSocket.UnixSocketConnection.OnEnd | sdk/js/src/transport/unix-socket.ts:26-40 | Rejects every pending read, in the order in which they were issued, with the code of the event, and settles nothing else; what no read was given stays readable. |
| JsSocket.UnixSocketConnection.Receive | sdk/js/src/transport/unix-socket.ts:69-79 | Keeps byte conservation; a read gets exactly the next bytes of the stream that no earlier read was given, at once if enough have arrived, else it is rejected on a dead connection and waits its turn on a live one. |
| JsSocket.RunConserves | sdk/js/src/transport/unix-socket.ts:20-103 | Byte conservation over every sequence of events and readers: bytes resolved in resolution order and then the buffer are the bytes that arrived; each read settles at most once, with the length it asked for; a pending head read wants more than the buffer holds. |
| JsSocket.NoReadHangs | sdk/js/src/transport/unix-socket.ts:26-79 | Once the socket has closed or failed, every read issued before or after is settled. |
| JsSocket.EndRejectsAll | sdk/js/src/transport/unix-socket.ts:26-79 | After every sequence of events: the end of the connection settles exactly the reads that wait, in order, with its code, and later reads that the buffer cannot serve get ECONNRESET. |
| JsFraming.RunKeeps | sdk/js/src/protocol/framing.ts:30-41 | The invariant of `recvFrame` across its two awaits, for one reader that stops at its first error and every interleaving of chunks, calls, continuations, errors and closes. |
| JsFraming.RefinesParser | sdk/js/src/protocol/framing.ts:30-41 | Safety of the TypeScript receiver against the same parser on the concatenated chunks: the frames returned are its first frames, all of them when a call waits for the peer or has failed, and the failure says how the parse ends. That a call does return is the next rows. |
| JsReceives.CallReturns | sdk/js/src/protocol/framing.ts:30-41 | A call in progress, after every run: once its continuations have run it has returned the next frame exactly if that frame has arrived whole, failed for its size exactly if the header says so, and otherwise waits or was rejected because the connection is dead. |
| JsReceives.NextCallReturns | sdk/js/src/protocol/framing.ts:30-41 | The same of a call made after any run without a failure. |
| JsReceives.AllCanBeReceived | sdk/js/src/protocol/framing.ts:30-41 | With no further event, calling again until a call waits or fails returns every frame that has arrived, from every reachable state, the connection being alive or dead. |
| JsReceives.Arrives | sdk/js/src/transport/unix-socket.ts:20-40 | The stream that the frames are parsed from is the concatenation of the chunks delivered until the socket ended or was closed. |
| JsReceives.EndReturns | sdk/js/src/transport/unix-socket.ts:26-40 | The end of the connection ends the call in progress: with the next frame if that has arrived whole, with the code of the event if the call was waiting. |
| JsReceives.DeadCallReturns | sdk/js/src/transport/unix-socket.ts:69-79 | A call made on a dead connection never waits. |
| JsFraming.DeadConnectionStillReadable | sdk/js/src/transport/unix-socket.ts:69-79 | Every frame that was complete in the buffer when the connection died is still returned. |
| Receivers.ReceiversAgree | sdk/js/src/protocol/framing.ts:30-41 | The two SDKs agree on every byte stream: the frames, and oversized rejection or reset. |
| Receivers.ReceiversAgreeWhenDrained | sdk/js/src/protocol/framing.ts:30-41 | On a connection that has died, receiving on to the end gives what the C++ receiver gives on the same bytes. |
| Protobuf.VarintRoundTrip | sdk/js/src/generated/proto.js:191-191 | A 64-bit varint of any value is read back, truncated to the reader's width, with what follows untouched. |
| Protobuf.VarintExactly | sdk/js/src/generated/proto.js:236-247 | Reading a varint succeeds if and only if one of at most ten bytes is there, in its shortest form or not, and gives the sum of its base-128 digits cut to the width. |
| Protobuf.Int32RoundTrip | sdk/js/src/generated/proto.js:188-189 | Every int32, negative ones in 64-bit two's complement, is read back. |
| Protobuf.BytesRoundTrip | sdk/js/src/generated/proto.js:192-197 | Every length-delimited record is read back exactly. |
| Protobuf.SkipsValue | sdk/js/src/generated/proto.js:292-294 | `skipType` consumes a well-formed value exactly, for every wire type and any nesting of groups. |
| Envelopes.InFieldIsShift | sdk/js/src/generated/proto.js:240-240 | The ranges of tags used in the model are the values of `tag >>> 3`. |
| EnvelopeLaws.EntryRoundTrip | sdk/js/src/generated/proto.js:204-204 | A forked metadata entry is read back as its key and value. |
| EnvelopeLaws.ItemRoundTrip | sdk/js/src/generated/proto.js:188-204 | Every field that `encode` writes is read back by one turn of the decode loop, with what follows untouched. |
| EnvelopeLaws.RoundTrip | sdk/js/src/generated/proto.js:185-298 | For every message with any subset of fields and any metadata in any key order, decode after encode gives its own fields back, and the others read as their defaults. |
| EnvelopeLaws.DecodeAppend | sdk/js/src/generated/proto.js:236-296 | Decoding is local: decoding a concatenation continues from what the first part decoded to. |
| EnvelopeLaws.DecodeMerges | sdk/js/src/generated/proto.js:236-296 | Decoding on top of a message merges into it what the bytes decode to alone, or fails alike. |
| EnvelopeLaws.MergeLaw | sdk/js/src/generated/proto.js:236-296 | Decoding a concatenation is last-one-wins on scalars and right-biased union on metadata, for all byte strings of which the first decodes. |
| EnvelopeLaws.MergeEncodings | sdk/js/src/generated/proto.js:185-298 | The same for two encoded messages: the later one wins field by field. |
| EnvelopeLaws.UnknownIgnored | sdk/js/src/generated/proto.js:292-294 | A well-formed unknown field inserted at any field boundary leaves the result unchanged. |
| EnvelopeLaws.UnknownIgnoredInEntry | sdk/js/src/generated/proto.js:269-291 | The same inside a map entry, for the decoding of the whole message around it. |
| EnvelopeCode.EncodeEnvelope | sdk/js/src/generated/proto.js:185-206 | The imperative encoder emits exactly the items of the message in order, for every enumeration of the metadata. |
| EnvelopeCode.PutMetadata | sdk/js/src/generated/proto.js:202-204 | The loop over the keys emits one entry per key in key order. |
| EnvelopeCode.Reader.SkipToEnd | sdk/js/src/generated/proto.js:292-294 | Skipping a group ends on every buffer and stops after its end tag. |
| EnvelopeCode.DecodePairs | sdk/js/src/generated/proto.js:272-288 | The nested loop ends on every buffer, advances on every turn, and returns the last key and value or the error of the first bad field. |
| EnvelopeCode.DecodeField | sdk/js/src/generated/proto.js:240-295 | One turn of the switch stores what the functional decoder reads, or throws its error, and never moves back. |
| EnvelopeCode.DecodeEnvelope | sdk/js/src/generated/proto.js:232-298 | Decode is total: on every byte string the loop ends within the buffer and equals the functional decoder, error for error. |
| Dispatcher.DispatchAnswers | sdk/cpp/core/src/rpc/dispatcher.cpp:11-63 | A dispatch answers its own request; success if and only if the method exists and its handler returned; the status tells the kinds of failure apart; an error carries no payload; names and metadata are empty. |
| Dispatcher.ErrorMessages | sdk/cpp/core/src/rpc/dispatcher.cpp:11-63 | What the message of an error carries in each SDK: the name that was not found, or the message of the handler. |
| Dispatcher.SdksAgree | sdk/js/src/rpc/server.ts:164-211 | Both SDKs answer every request alike, up to the wording of the error message. |
| CppCodec.CodecExact | sdk/cpp/core/src/protocol/envelope_codec.cpp:11-34 | Every envelope the C++ SDK builds, sent with its defaults dropped, is parsed back as it was if each of its strings is the UTF-8 encoding of some list of Unicode scalar values, and rejected if one is not. |
| CppCodec.ParsesEncoded | sdk/cpp/core/src/protocol/envelope_codec.cpp:21-34 | The same for any message of the schema that another encoder writes, metadata in any order included. |
| CppCodec.WritesNoDefault | sdk/cpp/core/src/protocol/envelope_codec.cpp:11-19 | The fields on the wire are exactly those that differ from their default, each with its value. |
| Utf8.Utf8Exactly | sdk/cpp/core/src/protocol/envelope_codec.cpp:28-31 | The check of string fields accepts exactly the encodings, by arithmetic on code points, of lists of scalar values: one to four bytes, no surrogate, none overlong. |
| Utf8.TextUnique | sdk/cpp/core/src/protocol/envelope_codec.cpp:28-31 | Two lists of scalar values with the same bytes are equal. |
| Interop.CppToJs | sdk/js/src/generated/proto.js:232-298 | What the C++ SDK writes the TypeScript SDK reads as it was. |
| Interop.JsRequestToCpp | sdk/js/src/generated/proto.js:185-206 | A request that the TypeScript client writes, with any metadata, reaches a C++ handler as it was made if its strings are texts, and is answered under its id. |
| Interop.CallCrosses | sdk/js/src/rpc/server.ts:152-155 | A C++ request answered by the TypeScript server: the client parses the response under its own id, equal, but for the wording of an error, to what a C++ server answers. |
| ServerLoop.ServeOne | sdk/cpp/core/src/rpc/server.cpp:119-139 | One turn: reads one frame, dispatches the request decoded from it and writes its response, whole or cut short, and nothing else. |
| ServerLoop.HandleConnection | sdk/cpp/core/src/rpc/server.cpp:115-144 | In-order service for every stream and schedule: responses written are those of the first requests in order, at most the last missing or cut; the loop stops only when a system call has just failed, at the end of the stream, at a frame it cannot receive or decode, or at an oversized response. |
| JsServer.ServedInOrder | sdk/js/src/rpc/server.ts:140-160 | The same of the TypeScript loop, for every interleaving of events with its awaits: requests served are the first frames of the parse in order, each answered under its own id, the bytes written are whole responses and then at most one cut. |
| JsServer.ServedInOrderForProtobuf | sdk/js/src/rpc/server.ts:140-160 | The same with the generated codec: what was sent whole decodes to the response to each request, under its id. |
| JsServer.WhyItEnds | sdk/js/src/rpc/server.ts:144-159 | Each of the five ways to leave the loop is told apart by what it says of the stream and the bytes written, and of the whole requests left in the buffer. |
| JsServer.UnservedExactly | sdk/js/src/rpc/server.ts:144-159 | However the loop ends, every request that arrived whole was served if and only if the decoder refused none and, unless a receive failed, the buffer does not start with a complete frame. |
| JsServer.EmptyRequestUnserved | sdk/js/src/rpc/server.ts:144-144 | A run with the generated codec in which a request that arrived whole is left unserved. |
| JsServes.OnlyWritesFail | sdk/js/src/rpc/server.ts:154-158 | The loop ends because of a failed write only if a write did fail in the run or the connection was gone: never because of what the response says. |
| JsServes.ReceivesNext | sdk/js/src/rpc/server.ts:144-152 | A receive in progress, after every run: the next request is dispatched exactly if its frame has arrived whole and decodes; else the loop ends, if the frame is oversize, undecodable or cut by the end of the connection, or waits. |
| JsServes.RepliesNext | sdk/js/src/rpc/server.ts:152-159 | From every state in which a request is being handled on a live connection, whatever the handler does, error responses included: the response is written whole, nothing else is, and the loop is back at its test. |
| JsServes.EveryRequestAnswered | sdk/js/src/rpc/server.ts:144-159 | From every reachable state on a live connection the loop's own steps serve every request that has arrived, for any results of the handlers, write every response whole and come back to receiving, or end because the next frame is too large. |
| JsServes.Arrives | sdk/js/src/transport/unix-socket.ts:20-40 | What the loop reads is the concatenation of the chunks delivered until the socket ended or was closed. |
| JsServes.DeadLoopEnds | sdk/js/src/rpc/server.ts:144-159 | However a run goes on after the end of the connection, the loop writes no more than the rest of the current write, dispatches at most the request it was receiving and completes at most the response it was sending. |
| RpcConn.CompleteIsWhole | sdk/cpp/core/src/rpc/server.cpp:119-128 | Whatever the client's failed sends left on a connection, a frame the server completes is the one request that was written whole and not dispatched yet. |
| RpcConn.AcceptKeeps | sdk/cpp/core/src/transport/unix_socket_transport.cpp:27-43 | Every partial write keeps the account of what is on its way to the server. |
| RpcConn.ClientReadKeeps | sdk/cpp/core/src/rpc/client.cpp:157-162 | Every partial read keeps the account of the response, and the first frame the client completes is the response to its own request, never an oversized one. |
| RpcSteps.OwnResponse | sdk/cpp/core/src/rpc/client.cpp:157-173 | What the client reads is, if it decodes, the dispatch of its own request. |
| RpcSteps.RetryWakeKeeps | sdk/cpp/core/src/rpc/client.cpp:141-150 | A retry on the connection that its own thread has just opened keeps the whole invariant, although its id is older than ids used since. |
| RpcSteps.Reachable | sdk/cpp/core/src/rpc/client.cpp:111-174 | The whole invariant holds after every run of any number of threads. |
| RpcTheorems.OutcomeTable | sdk/cpp/core/src/rpc/client.cpp:111-174 | Never two dispatches of one request; a returned response means exactly one, and it is the response that this dispatch recorded; a send error means none; the id-mismatch branch is unreachable; no request is dispatched that was not issued. |
| RpcTheorems.OutcomeTableForProtobuf | sdk/cpp/core/src/protocol/envelope_codec.cpp:11-34 | The table, with the protobuf codec in place of an abstract one. |
| RpcTheorems.SendErrorIsFinal | sdk/cpp/core/src/rpc/client.cpp:139-154 | After a send error the request is not dispatched later either, however the run goes on. |
| RpcTheorems.RunKeepsResults | sdk/cpp/core/src/rpc/client.cpp:111-174 | What a call returned under its id is never overwritten. |
| RpcTheorems.Quiescence | sdk/cpp/core/src/rpc/client.cpp:139-173 | When the mutex is free and the client is connected, its connection carries no unanswered request and no unread byte. |
| RpcTheorems.HandlesAgree | sdk/cpp/core/src/rpc/client.cpp:23-80 | The three handles agree and name the only connection that counts as connected, whose descriptor is not released; at most one thread is inside send or recv. |
| RpcTheorems.ReleasedExactly | sdk/cpp/core/src/rpc/client.cpp:68-72 | A connection given up has its descriptor released if and only if the cause was not a failed system call or EOF. |
| RpcTheorems.IdsIncrease | sdk/cpp/core/src/rpc/client.cpp:130-155 | Ids increase strictly in the order written on every connection, retries included; no two threads work on one id, and none on an id that has its outcome. |
| RpcRetries.RetryIsFirst | sdk/cpp/core/src/rpc/client.cpp:85-106 | In every reachable state, the connection on which a request is being sent again carries no request before it. |
| RpcTheorems.ServedInOrder | sdk/cpp/core/src/rpc/server.cpp:115-144 | On every connection requests are dispatched in the order written, at most one behind, each answered under its own id. |
| RpcAccount.NoCallIsLost | sdk/cpp/core/src/rpc/client.cpp:111-174 | Conservation of calls after every run, as multisets of service, method and payload: the calls made are those refused, those that a request was built for and those preparing; the ids given are those with an outcome and those a thread works on. |
| RpcAccount.RequestsCarryCalls | sdk/cpp/core/src/rpc/client.cpp:130-137 | Every request ever built names the service and the method, and carries the payload, of a call that was made, is a REQUEST under its own id, and carries nothing else. |
| RpcLimits.SentAtMostTwice | sdk/cpp/core/src/rpc/client.cpp:139-155 | In every run the client starts to write each request at most twice, and at most once if it makes no attempts to reconnect. |
| RpcLimits.OverForGood | sdk/cpp/core/src/rpc/client.cpp:68-72 | However a run goes on: a connection given up stays given up, for the same reason, and no request is written to it; a handler that has stopped dispatches nothing more. |
| RpcLimits.StoppedServesNoMore | sdk/cpp/core/src/rpc/server.cpp:119-143 | Nothing that arrives at a handler that has stopped, or is still on its way to it, is ever dispatched. |
| RpcCauses.ErrorsNameCauses | sdk/cpp/core/src/rpc/client.cpp:139-162 | Of every call that returned: a size error if and only if its request does not fit in a frame; a receive error is of the transport, or the request was dispatched once and its response does not decode; each error cost a connection that was given up for it. |
| RpcWitness.CallCanSucceed | sdk/cpp/core/src/rpc/client.cpp:111-174 | From every state with a free mutex and a waiting server there is a run in which the call returns: with the handler's payload in a RESPONSE if the method it named is registered and the handler returns it, with NOT_FOUND or INTERNAL otherwise, under its own id, its request dispatched once. |
| RpcReconnect.RetryCanSucceed | sdk/cpp/core/src/rpc/client.cpp:139-155 | From every such state the first send can fail, any number of attempts below max_attempts be refused, and the call still return so: the request is sent again on the new connection and dispatched there, once. |
| RpcReconnect.CallCanReconnect | sdk/cpp/core/src/rpc/client.cpp:118-137 | A call made while disconnected can return so too, on the connection of the first attempt that is accepted. |
| RpcReconnect.RefusedExactly | sdk/cpp/core/src/rpc/client.cpp:85-128 | A call made while disconnected is refused after exactly max_attempts failed attempts, at once if there is none to make, and nothing else has changed until then. |
| RpcReconnect.OvertakenCallIsRefused | sdk/cpp/core/src/rpc/client.cpp:96-105 | An attempt also fails when another thread has connected during the sleep: such a call is refused although the client is connected by then. |
| RpcReconnect.OvertakenRetryIsGivenUp | sdk/cpp/core/src/rpc/client.cpp:139-151 | In the same way a retry is given up, with the error of the first send. |
| RpcReconnect.ConnectMakesReady | sdk/cpp/core/src/rpc/client.cpp:18-40 | connect makes a disconnected client ready for such calls. |
| RpcReconnect.DisconnectReleases | sdk/cpp/core/src/rpc/client.cpp:45-55 | disconnect releases the descriptor of its connection, resets the handles and touches nothing else. |
| RpcProgress.EveryCallCanReturn | sdk/cpp/core/src/rpc/client.cpp:111-174 | No caller is stuck: every run can go on, no call being made, to a state in which all threads have returned and each call made was refused or has its outcome, even if the server never answers and no peer accepts. |
| RpcWitness.RecvErrorIsAmbiguous | sdk/cpp/core/src/rpc/client.cpp:157-162 | From every such state the same receive error is returned by a run with no dispatch and by a run with one: the table cannot be sharpened, and a retry would not be safe. |
| RpcWitness.SendCanFail | sdk/cpp/core/src/rpc/client.cpp:139-154 | From every such state the call can return a send error, with no dispatch, for any max_attempts, and leave the descriptor open. |
| ClientCall.Client.ConnectLocked | sdk/cpp/core/src/rpc/client.cpp:23-40 | Fails without effect when already connected; on success all three handles name a new connection. |
| ClientCall.Client.HandleDisconnect | sdk/cpp/core/src/rpc/client.cpp:68-80 | The connection is given up before other threads can run, and one notification is made; its descriptor is released if and only if no send or receive of it had failed. |
| ClientCall.Client.Disconnect | sdk/cpp/core/src/rpc/client.cpp:45-55 | Releases the descriptor of the connection in use, if any, and resets the handles. |
| ClientCall.Client.AttemptReconnect | sdk/cpp/core/src/rpc/client.cpp:85-106 | Success on a connection opened since, or not_connected after exactly max_attempts tries; try k waits the k-th delay, computed within 63 bits. |
| ClientCall.Client.SendWithRetry | sdk/cpp/core/src/rpc/client.cpp:139-155 | One or two sends of the same request; a second only after a reconnect, on a connection opened since; one notification per failed send; after a single failed send the descriptor is released if and only if the frame was too large. |
| ClientCall.Client.Call | sdk/cpp/core/src/rpc/client.cpp:111-174 | Bounded work, exactly: at most two sends, two notifications and twice max_attempts tries, one notification per failed send and receive; every envelope sent is the request asked for, under the next id; at most one envelope is received, returned if and only if it carries that id, else a mismatch is reported. |
| ServerLifecycle.ConnectionCap | sdk/cpp/core/src/rpc/server.cpp:88-110 | In every interleaving at most max_connections are active, although the check and the insertion are separate critical sections. |
| ServerLifecycle.ActiveIsAlive | sdk/cpp/core/src/rpc/server.cpp:105-156 | Active connections correspond one to one to handlers that have not removed themselves. |
| ServerLifecycle.ServedOrRejected | sdk/cpp/core/src/rpc/server.cpp:88-110 | Every connection ever accepted gets a handler or was closed at a moment when exactly max_connections were active. |
| ServerLifecycle.SnapshotComplete | sdk/cpp/core/src/rpc/server.cpp:64-70 | From the snapshot on every active connection is closed or waits to be, and none can be added. |
| ServerLifecycle.StoppedIsDrained | sdk/cpp/core/src/rpc/server.cpp:56-81 | When the winning stop has returned no handler runs, no connection is active and the accept thread is joined. |
| ServerService.OnlyErrorsEndAccepting | sdk/cpp/core/src/rpc/server.cpp:88-110 | While the server runs, the accept loop ends only after an error of accept: not when a client is rejected. |
| ServerService.HandlersEndForAReason | sdk/cpp/core/src/rpc/server.cpp:115-144 | A handler leaves its loop only because of its peer or because the server has closed its connection. |
| ServerService.ClosedForAReason | sdk/cpp/core/src/rpc/server.cpp:64-97 | The server closes a connection only at the cap or in a stop. |
| ServerService.TakesNextClient | sdk/cpp/core/src/rpc/server.cpp:88-110 | From every reachable state of a running server whose accept has not failed, the accept loop comes back to accept() by its own steps and takes the next client, which is served if and only if fewer than max_connections are active and closed otherwise. |
| ServerService.LeavingFreesAPlace | sdk/cpp/core/src/rpc/server.cpp:142-156 | A client that goes away frees its place, whatever its handler was doing, and every other connection stays. |
| ServerShutdown.StopReturnsExactly | sdk/cpp/core/src/rpc/server.cpp:56-81 | From every reachable state of a stop, the server's own steps let it return if and only if the close of a descriptor wakes the thread blocked on it or no thread is blocked. |
| ServerShutdown.EveryScheduleReturns | sdk/cpp/core/src/rpc/server.cpp:56-81 | Where a close wakes, no schedule of the server's own steps keeps stop from returning, and until it returns one of them is enabled. |
| ServerShutdown.IdleClientHoldsStop | sdk/cpp/core/src/rpc/server.cpp:64-80 | Where a close does not wake, one idle client is enough: no steps of the server alone let stop return. |
| ServerCode.Server.TryStart | sdk/cpp/core/src/rpc/server.cpp:31-51 | Fails without effect when the server is running or the transport cannot be created or listen; a server that starts has no active connection and no running handler left of an earlier run. |
| ServerCode.Server.ExchangeRunning | sdk/cpp/core/src/rpc/server.cpp:57-57 | While a stop is in progress no other caller wins; the winner finds an accept thread to join. |
| ServerCode.Server.AtLimit | sdk/cpp/core/src/rpc/server.cpp:94-100 | Keeps the invariant of the lifecycle, which carries the room found here over to the insertion; a rejected connection is closed with exactly max_connections active. |
| ServerCode.Server.AddConnection | sdk/cpp/core/src/rpc/server.cpp:105-108 | Stays within the cap although the check was another critical section; the connection is new, its handler alive and on the list to be joined. |
| ServerCode.Server.RemoveConnection | sdk/cpp/core/src/rpc/server.cpp:149-156 | The search loop and the erasure leave no entry of the connection and touch no other. |
| ServerCode.Server.CloseAll | sdk/cpp/core/src/rpc/server.cpp:64-70 | Closes exactly the connections that were active; no handler that is alive is left with an open connection. |
| ServerCode.Server.TakeThreads | sdk/cpp/core/src/rpc/server.cpp:73-77 | Every handler still alive is among the threads taken to be joined, and its connection is closed. |
| Backoff.DelaysAgree | sdk/js/src/rpc/client.ts:197-197 | The two SDKs wait alike before every attempt if and only if the cap is reached by attempt 30. |
| Backoff.NoOverflow | sdk/cpp/core/src/rpc/client.cpp:92-94 | The C++ product fits 63 bits for every attempt if and only if the base is below 2^33. |
| Backoff.DelaysGrow | sdk/cpp/core/src/rpc/client.cpp:90-94 | Delays never decrease and never exceed the cap, in both SDKs. |
| Backoff.TotalClosedForm | sdk/js/src/rpc/client.ts:196-198 | With the cap reached at attempt m, the total of n TypeScript delays is base * (2^m - 1) + (n - m) * max, and at most n * max. |
| Backoff.CppTotalClosedForm | sdk/cpp/core/src/rpc/client.cpp:90-94 | The C++ total has the same form, with the smaller of the cap and base * 2^30 as the bound. |
| Backoff.CapReachedOnce | sdk/js/src/rpc/client.ts:197-197 | The attempt at which the cap is reached is unique. |
| JsClient.RunKeeps | sdk/js/src/rpc/client.ts:118-151 | The invariant of flag, sockets and writers over every interleaving of calls, reconnects, timeouts and closes; which calls begin and return is stated in the rows of JsProgress. |
| JsClient.OneCallInFlight | sdk/js/src/rpc/client.ts:118-151 | At most one call is between taking and releasing the flag, also among calls that resume after a reconnect. |
| JsClient.WritesAreWholeFrames | sdk/js/src/protocol/framing.ts:15-28 | What is written to any socket is whole frames and at most one cut frame, so the server parses exactly the whole ones; they are the frames of the first requests begun on it, in the order of their ids. |
| JsCorrelation.ResponsesAreOwn | sdk/js/src/rpc/client.ts:136-148 | A call that returns has the response to its own request, and no call finds a mismatched id, on every connection on which no call timed out and no response was bad. |
| JsCorrelation.EveryResponseIsOwn | sdk/js/src/rpc/client.ts:136-148 | So in a run without either, on all connections. |
| JsProgress.CallBegins | sdk/js/src/rpc/client.ts:118-135 | A call made after any run waits exactly if the client is not connected but configured to reconnect; otherwise it takes the next id and begins its frame on the client's connection exactly if the client is connected and no call is in flight, and is refused without effect if not. |
| JsProgress.CallCanReturn | sdk/js/src/rpc/client.ts:118-151 | From every reachable state in which the client is connected, no call is in flight and the connection works: a call whose request fits in a frame can return the response to that request. |
| JsProgress.WaitEnds | sdk/js/src/rpc/client.ts:212-225 | A waiting call goes on waiting exactly while the client is trying to reconnect, and then begins or is refused like any other. |
| JsProgress.WaitingCallCanReturn | sdk/js/src/rpc/client.ts:118-151 | A waiting call can return the response to its own request on the next connection, whatever happened on those before. |
| JsProgress.WaitsWhileReconnecting | sdk/js/src/rpc/client.ts:184-225 | From the loss of a connection on, a waiting call is not refused before the reconnect loop gives up. |
| JsProgress.ConnectedExactly | sdk/js/src/rpc/client.ts:79-95 | The client has a codec exactly if it was not disconnected and no socket of its own has ended since it last got a connection; it is reconnecting exactly if a socket has ended since the loop last connected or gave up. |
| JsProgress.NoIdIsLost | sdk/js/src/rpc/client.ts:123-151 | After every run the ids given out are those with an outcome and that of the call in flight, which has none. |
| JsProgress.AwaitingCallEnds | sdk/js/src/rpc/client.ts:138-151 | The five ways a call that awaits its response can end, with what each leaves: its own response, an error by timeout, bad response or the end of the connection; only the first two errors lead the connection astray. |
| JsProgress.SendingCallWrites | sdk/js/src/protocol/framing.ts:15-28 | A socket takes any piece of the header or of the payload; once it has ended it takes nothing and the payload is not begun. |
| JsProgress.FlightCanEnd | sdk/js/src/rpc/client.ts:136-151 | The call in flight, wherever it stands, can throw and release the flag. |

## Left out

- Sockets, named pipes, socket files, `TransportFactory`, logging, error messages of the system, CMake and examples: input and output.
- `ServiceRegistry`, `ServiceBase`, `ServerBuilder`, `ClientStub`, `typedMethod` and the built-in Ping service: a lookup in a map and an arbitrary handler stand for them.
- `verify`, `fromObject`, `toObject`, the delimited forms, and the other generated messages: they repeat the Envelope pattern with fewer fields.
- RpcRun: the client and the server handlers run on values, one step at a time, because an interleaving of threads is not one method; the single-threaded code is in `ClientCall`, `CppFraming` and `ServerLoop`.
- RpcRun: a step that would issue the id 2^64 is not taken, so wrap-around of ids is not modelled.
- JsFraming.RunKeeps: runs are excluded in which a TypeScript client reads on after a call that timed out, whose read stays pending beside the next one (sdk/js/src/rpc/client.ts:138), or after an oversized frame (sdk/js/src/protocol/framing.ts:33-38), because the parse of the stream says nothing about them; `JsSocket` still gives byte conservation for any number of readers.
- JsClient: the encoded request is a parameter of the call, so what `Envelope.create` puts into it (sdk/js/src/rpc/client.ts:126-133) is not modelled; its id is that of the call.
- JsClient and JsServer: the code between two awaits is one step on values; timers are steps that may come at any time, and ids are unbounded instead of below 2^53.
- JsCorrelation: of the servers it is assumed what `ServerLoop` and `JsServer` prove of them, that the whole requests of a connection are answered in order, each under its own id; after a timed-out call or a bad response what later reads of the connection return is left open.
- ServerLifecycle: the threads run on values, since an interleaving is not one method; `ServerCode` has the critical sections as methods. `start` and `stop` do not overlap, a handler's own code ends, and `close` counts as a close also on a connection whose handler has met EOF and is leaving.
- Callbacks that throw, or that call into the client while its mutex is held (`on_reconnect`).
- ClientCall: the id counter and the connection numbers are unbounded, and what other threads do while the mutex is free is any change that keeps the handles consistent.
- Backoff: milliseconds are natural numbers; rounding of doubles above 2^53 is not modelled.
- Envelopes: strings are their UTF-8 bytes, so invalid UTF-8 and surrogates are not modelled; the metadata key `__proto__` and the order of integer-like keys of JavaScript objects are excluded; varints of more than ten bytes are errors.
- CppCodec: libprotobuf is the same codec with defaults dropped and string fields checked for UTF-8 once they are all read; known fields with a wrong wire type, which it skips, and invalid strings that a later occurrence of the field replaces are not modelled.
