# sioxx, verified

A Dafny model of the sioxx Socket.IO / Engine.IO v4 client and proofs about it. The project is
about what the client does when its threads interleave and when its wire formats are composed:
timed acknowledgements, the send buffer, shutdown against reconnection, the text parser with
binary attachments, the polling wire format, the WebSocket write queue, the heartbeat, URL
building and back-off. `dafny verify dfyconfig.toml` verifies all of it.

## How it is organised

| files | part of the client |
|---|---|
| `AckScheduler.dfy` | the deadline map and its ordered index, and the worker's loop |
| `SocketCore.dfy`, `Socket.dfy` | the effect of each critical section of a socket as a function, and the socket object whose methods are proved to have that effect |
| `SocketMachine.dfy`, `SocketSafety.dfy`, `SocketDelivery.dfy`, `SocketTheorems.dfy` | one socket under every interleaving: states, steps, the invariant, its preservation, and what follows for every run |
| `Json.dfy`, `PacketText.dfy`, `JsonParser.dfy` | moving binary leaves out of JSON values and back, the packet header, the multi-frame decoder |
| `Base64.dfy`, `Polling.dfy` | base64, batches, delivery, and the path from encoder to decoder over HTTP polling |
| `EngineCore.dfy` | the actions and calls of the Engine.IO client as functions |
| `EngineMachine.dfy`, `EngineTheorems.dfy`, `EngineSerial.dfy` | one Engine.IO client under every interleaving of open, close, handshakes, losses and its heartbeat workers: steps, invariant, what follows for every run, and what follows when the transport reports one thing at a time |
| `ClientCore.dfy`, `Client.dfy` | the critical sections of the Socket.IO client as functions, and both clients as objects whose methods are proved to have those effects |
| `ClientMachine.dfy`, `ClientShutdown.dfy` | engine replacement, socket registration and several shutdowns at once, each registered socket being a whole socket machine; the steps are built from the functions of `ClientCore` |
| `ClientRefinement.dfy` | every sequence of calls of the client object is a run of that machine |
| `Reconnects.dfy` | the reconnect counter with its test, read, write and announcement as separate steps |
| `WritePump.dfy`, `Heartbeat.dfy`, `EngineUrl.dfy`, `Backoff.dfy` | the write queue, the timing of the heartbeat, URLs, reconnect delays |
| `Options.dfy`, `Sequences.dfy` | the type of a value that may be missing, and facts about slices |

Where the source changes fields in place or loops, the model is a class or a method with a loop,
proved equal to a function; the laws are then proved of the functions. A protocol is a state
machine whose step is one critical section or one action between two of them; a theorem about it
quantifies over every sequence of enabled steps. Time is an integer that only grows, and whatever
a step learns from outside (the clock, the JSON library, the order of threads) is a parameter.

## What holds, and what does not

In every run of a socket each timed callback is invoked at most once, never after a cancel removed
it, says `timeout` exactly when its deadline had passed at the decision, and an overdue callback is
decided after a bounded number of steps of the worker, however the other threads interleave. At most
one call flushes the buffer at a time. Packets of one thread, and
packets that went through the buffer, leave in order and once; only timed packets are dropped, and
only with their callback invoked, cancelled or overdue. After `close()`, and after `sync_close()`,
the client stays shut down in the sense of the theorems below until the next `connect()`.

Some natural statements are false of the code. Each has a concrete witness and the exact condition
under which it holds.

- A packet does not always survive encoding and decoding. It does exactly when its namespace is
  empty or starts with `/` and has no comma, its data is not a bare number without a sign, binary
  leaves occur only in events and acks, and, if there are attachments, no object of the application
  looks like a placeholder (`RoundTripIff`). One that does, and has a binary member, is not rejected
  but silently replaced by that member's bytes (`LookalikeIsReplaced`). Over polling the namespace
  must also be free of the record separator (`PollingRoundTripIff`).
- After `close()` an `open` call can still get through. It does exactly on an engine that had been
  superseded, and was not closing when that happened; never on the installed one
  (`OnlySupersededOpens`, `SupersededEngineMayOpen`).
- An Engine.IO client can be open after its `close()` has finished: exactly when a handshake has been
  handled since, and after it no loss was reported and no open call that had passed its test before
  the close cleared the flag (`OpenAfterCloseIff`, `HandshakeReopens`).
- Behind the mark that `close()` sets, the transport can still be asked to connect and a heartbeat
  worker can still be started. Exactly the open calls already past their test reach the transport
  (`OpensBehindMark`, `LateConnectIff`, `OpenRacesClose`). A worker can be started exactly while a
  starter is past its own test, only one, and none once the close has requested the stop
  (`LateStartIff`, `NoStartAfterStopRequest`, `StartRacesClose`); it never goes to sleep
  (`StopReachesWorker`).
- A heartbeat worker is always joined or detached before the next is started, and at most one is in
  its loop, while the transport reports one thing at a time (`WorkersSucceedEachOther`). Two
  overlapping handshakes can end the program (`OverlappingHandshakesTerminate`).
- The announced reconnect attempts are 0, 1, 2, ... within the budget while one thread at a time
  reports a loss or connects (`SerialBudget`). Where losses overlap, that holds in every run exactly
  if reconnecting is disabled (`OverlappingBudgetIff`): the counter is a plain integer.
- A server that takes the query to be what follows the first `?` of the request target gets the
  protocol version, the transport and the application's pairs exactly when the configured path has no
  `?` (`UrlRoundTripIff`, `MarkedPathLosesQuery`).
- The scheduler's map and ordered set stay in step exactly when an added id is new or keeps its
  deadline (`AddKeepsIndexIff`); ids come from one counter, so the socket always meets this.
- The exponent cap of the back-off changes some delay exactly when the maximum exceeds the positive
  initial delay times 2^62 (`CapHarmlessIff`).
- Host and port are recovered from every authority except a bracketed address with a colon and no
  port, which is cut inside its brackets (`SplitAuthorityIff`).

Comments in `src/client.cpp` say that a replacement engine is either installed in time for `close()`
to select it or rejected; that is proved. `src/engineio_client.hpp` initialises the stop flag of the
heartbeat to true, which the model follows.

## Model

| member | source | states |
|---|---|---|
| AckScheduler.InsertCorrect | src/ack_scheduler.hpp:73 | Inserting into the ordered set keeps it strictly increasing and adds exactly the pair |
| AckScheduler.EraseCorrect | src/ack_scheduler.hpp:97 | Erasing keeps the order and removes exactly the pair |
| AckScheduler.HeadIsLeast | src/ack_scheduler.hpp:37-45 | The head of the ordered set is the entry a linear search of the map would choose |
| AckScheduler.LeastExists | src/ack_scheduler.hpp:37 | A nonempty map has one and only one least (deadline, id) |
| AckScheduler.AddKeepsIndexIff | src/ack_scheduler.hpp:67-81 | Map and ordered set stay in step after an add if and only if the id is new or keeps its deadline |
| AckScheduler.Scheduler.Add | src/ack_scheduler.hpp:67-81 | Both containers after `emplace`; the index is valid exactly under that condition |
| AckScheduler.Scheduler.Expired | src/ack_scheduler.hpp:83-88 | True exactly for a missing id or a deadline that has passed |
| AckScheduler.Scheduler.Remove | src/ack_scheduler.hpp:91-101 | Removes the id from both containers; the result is expiry, and true for a missing id |
| AckScheduler.Scheduler.Clear | src/ack_scheduler.hpp:103-109 | Empties both containers |
| AckScheduler.Scheduler.LookOnce | src/ack_scheduler.hpp:30-48 | A pass sleeps for ever iff the map is empty, else sleeps until the minimum of all deadlines, else claims the least due entry |
| AckScheduler.Scheduler.ClaimAllDue | src/ack_scheduler.hpp:30-49 | With a clock that moves on between passes the loop claims exactly the ids due at its last look, in increasing (deadline, id) order, and leaves the others |
| SocketCore.DeadlineFor | src/socket.cpp:167-172 | The deadline is start plus timeout or the end of the clock's range, never outside it, and exact a millisecond clear of the end |
| SocketCore.PurgeKeepsOthers | src/socket.cpp:232-235 | A purge keeps exactly the packets of other ids |
| SocketCore.PurgeKeepsOrder | src/socket.cpp:381-385 | A purge keeps the insertion order |
| Socket.Socket.PurgeBuffer | src/socket.cpp:232-235 | The in-place removal leaves the purged buffer |
| Socket.Socket.AllocateAckId | src/socket.cpp:132-140 | A fresh id and its pending callback, nothing else changed |
| Socket.Socket.Submit | src/socket.cpp:240-252 | Sent directly exactly when connected with no flush under way, otherwise appended to the buffer |
| Socket.Socket.Emit | src/socket.cpp:160-194 | Invalid timeout or callback exactly reported without change; otherwise the timed emission with its clamped deadline |
| Socket.Socket.SubmitTimed | src/socket.cpp:181-220 | Refused exactly after shutdown; otherwise registered in map and scheduler under the next id and dropped if expired, else sent or buffered under that id |
| Socket.Socket.ExpireAck | src/socket.cpp:222-238 | Hands back the callback once, counts it and purges its packet; no effect if it is gone |
| Socket.Socket.DispatchAck | src/socket.cpp:338-372 | A timed callback first, with `timeout` iff the deadline passed or was claimed; else the pending untimed one, which leaves the map; unknown exactly if the id is in neither, and then nothing changes |
| Socket.Socket.FlushOnce | src/socket.cpp:256-271 | One pass: stop and clear the flag, or pop the oldest and judge its expiry |
| Socket.Socket.Flush | src/socket.cpp:254-278 | The loop sends exactly the packets that are not overdue, in order, and empties the buffer |
| Socket.Socket.CancelTimedAcks | src/socket.cpp:374-390 | All timed callbacks removed uncalled, their packets purged, scheduler cleared, further timed emissions refused |
| Socket.Socket.ResumeTimedAcks | src/socket.cpp:398-402 | Timed emissions accepted again |
| Socket.Socket.FinishTimedAck | src/socket.cpp:419-424 | The in-flight counter falls by one |
| Socket.Socket.MarkConnected | src/socket.cpp:426-450 | The caller must flush exactly on becoming connected with no flusher active |
| SocketSafety.AgreedKept | src/socket.cpp:196-424 | Every step of every thread keeps the cross-object invariant on ids, fates, deadlines, outcomes, wake-ups, counters and the flush flag |
| SocketDelivery.DeliveredKept | src/socket.cpp:181-278 | Every step keeps the invariant on where each packet is, in what order packets leave and why one is dropped |
| SocketTheorems.InvKept | src/socket.cpp:113-463 | Both invariants together are inductive |
| SocketTheorems.InReach | src/socket.cpp:113-463 | Every state any run reaches satisfies them |
| SocketTheorems.CallbackAtMostOnce | src/socket.cpp:222-238 | In every run a timed callback is invoked at most once and not after a cancel, and every registered one is live, cancelled or invoked |
| SocketTheorems.OutcomeIsTruthful | src/socket.cpp:344-369 | A callback reports `timeout` if and only if its deadline had passed when that was decided |
| SocketTheorems.CancelIsFinal | src/socket.cpp:374-390 | No continuation of a run invokes a cancelled callback |
| SocketTheorems.NoDeadlineUnattended | src/ack_scheduler.hpp:30-48 | A live callback is in the map or in the worker's hands, and an un-notified worker wakes no later than its deadline |
| SocketTheorems.StepRank | src/ack_scheduler.hpp:30-49 | While an overdue callback stays live, every worker step lowers its rank and only an emission with an earlier deadline raises it, by three |
| SocketTheorems.OverdueIsDecided | src/ack_scheduler.hpp:30-49 | In every interleaving, once the worker has taken as many steps as the rank (plus three for each earlier deadline that came in), an overdue callback has been invoked with `timeout` or cancelled |
| SocketTheorems.OverdueIsReported | src/ack_scheduler.hpp:30-49 | Every long enough run of the worker alone invokes it with `timeout` |
| SocketTheorems.WorkerNeverStuck | src/ack_scheduler.hpp:30-49 | While a live callback is overdue the worker can always take a step |
| SocketTheorems.FlushDiscipline | src/socket.cpp:254-278 | In every run at most one call of the flush loop is active, exactly while the flag is set; connected without one means an empty buffer |
| SocketTheorems.SentInOrder | src/socket.cpp:240-278 | Per thread and per buffer packets go out in emission order, none twice |
| SocketTheorems.NothingLostSilently | src/socket.cpp:232-278 | Every emission is buffered, held, handed over or dropped; a dropped one is timed, never sent, and its callback invoked, cancelled or overdue |
| SocketTheorems.SentBeforeDeadline | src/socket.cpp:240-276 | Whatever is handed over was decided under the lock while connected and, if timed, before its deadline |
| SocketTheorems.EmissionIsPlaced | src/socket.cpp:240-252 | An untimed emission waits behind the buffer while disconnected or flushing, otherwise its thread sends it |
| SocketTheorems.TimedEmissionIsPlaced | src/socket.cpp:181-194 | A timed emission is refused iff the socket is closed, dropped iff its deadline has passed, and otherwise placed the same way under the id it registered |
| SocketTheorems.MarkedAsTold | src/socket.cpp:426-450 | The socket is connected as marked last, and becoming connected starts a flush if none is under way |
| SocketTheorems.ResumesOpens | src/socket.cpp:398-402 | Resuming opens the socket for timed emissions and changes nothing else |
| SocketTheorems.UntimedAnsweredOnce | src/socket.cpp:358-371 | In every run an untimed callback is pending or has been invoked, never both and never twice |
| SocketTheorems.AckInvokes | src/socket.cpp:338-372 | In every reachable state an ack invokes the pending or live callback of its id, and an unknown id changes nothing |
| SocketTheorems.StepKeepsQuiet | src/socket.cpp:374-424 | A cancelled socket starts no callback and its in-flight count does not rise |
| SocketTheorems.QuietLasts | src/socket.cpp:392-424 | Until resumed, no callback starts; the counter equals the running callbacks, and zero stays zero |
| Json.DeconstructLeaves | src/json_parser.cpp:15-32 | Taking the binary leaves out leaves none, and the attachments are those leaves in order |
| Json.LeafBecomesPlaceholder | src/json_parser.cpp:17-28 | The literal placeholder object of a binary leaf |
| Json.PlaceholderIff | src/json_parser.cpp:51-74 | An object is a placeholder iff it maps `_placeholder` to true, and its number is the integer from zero on under `num` |
| Json.DeconstructSlots | src/json_parser.cpp:24-26 | Placeholders are numbered consecutively in traversal order |
| Json.ReconstructInverts | src/json_parser.cpp:103-119 | Putting attachments back undoes taking them out, at any offset, when no object looked like a placeholder |
| Json.ReconstructLeaves | src/json_parser.cpp:103-119 | Each placeholder receives the attachment its number names, and nothing else becomes binary |
| Json.ReconstructClears | src/json_parser.cpp:103-119 | No placeholder remains |
| Json.CollectSlots | src/json_parser.cpp:76-94 | The index collection succeeds iff all indices are in range, distinct and new, and then returns them |
| Json.ValidIffPermutation | src/json_parser.cpp:96-101 | The placeholder test accepts exactly the values whose indices are a permutation of 0 to n-1 |
| PacketText.ParseNonnegativeInt | src/json_parser.cpp:34-49 | Accepts exactly the nonempty digit strings whose value an `int` holds, without overflow on the way |
| PacketText.DecimalValue | src/json_parser.cpp:158-170 | Printing a number and reading it back is the identity |
| PacketText.HeaderRoundTrip | src/json_parser.cpp:152-268 | A printed header reads back as the packet with normalised namespace and id |
| PacketText.HeaderFormat | src/json_parser.cpp:152-176 | The text of a header part by part, with the protocol's digit of each type |
| PacketText.EventExample | src/json_parser.cpp:152-176 | An event with ack id 12 begins with `212` |
| PacketText.BinaryEventExample | src/json_parser.cpp:152-176 | An event with seven attachments begins with `57-` |
| PacketText.DisconnectExample | src/json_parser.cpp:152-176 | A disconnect from `/admin` is `1/admin,` |
| PacketText.HeaderIsSpelt | src/json_parser.cpp:207-268 | Whatever is read as a header is cut into type, count, namespace, id and data as the protocol says |
| PacketText.SpeltIsRead | src/json_parser.cpp:207-268 | And every text cut in that way is read, with the values its parts spell |
| PacketText.NumberIsLost | src/json_parser.cpp:246-268 | A bare unsigned number is read as part of the ack id and lost |
| PacketText.ReadHeaderShape | src/json_parser.cpp:207-268 | Whatever the text, a header read from it has a proper namespace, an `int` id and a positive count exactly when binary |
| JsonParser.EncodeFrames | src/json_parser.cpp:123-180 | A text that begins with the digit of the kind sent, binary exactly when an event or ack has a binary leaf, then those leaves in order; failure exactly beyond INT_MAX of them |
| JsonParser.FramesOf | src/json_parser.cpp:127-180 | The same of the specification of the encoder |
| JsonParser.HeaderDecoded | src/json_parser.cpp:201-280 | From any state a plain header is a whole packet, a binary one yields nothing and waits iff its placeholders are a permutation, and any other text leaves nothing behind |
| JsonParser.AttachmentDecoded | src/json_parser.cpp:185-205 | An attachment is ignored without a waiting header, kept in order before the last one, and completes the packet with it |
| JsonParser.DecodeKeepsConsistent | src/json_parser.cpp:182-281 | A pending header always lacks attachments and its placeholders are a permutation |
| JsonParser.StreamConsistent | src/json_parser.cpp:182-281 | The same after every stream of frames |
| JsonParser.StreamIsItsSegments | src/json_parser.cpp:185-205 | A stream yields what its text-led segments yield when decoded independently by new parsers |
| JsonParser.TextForgets | src/json_parser.cpp:201-205 | A text frame makes the past irrelevant |
| JsonParser.CompletionPlacesEachOnce | src/json_parser.cpp:103-205 | After any stream, completion puts every attachment in the one place its number names |
| JsonParser.RoundTrip | src/json_parser.cpp:123-281 | From any decoder state the frames of a packet give it back on the last frame and nothing before, with its own data, its kind switched by a stated table, and namespace and id normalised |
| JsonParser.RoundTripIff | src/json_parser.cpp:123-281 | Which packets survive, in both directions |
| JsonParser.StreamYieldsGenuine | src/json_parser.cpp:182-281 | No stream yields an improper namespace, a leftover placeholder in a binary packet or a binary leaf in another |
| JsonParser.LookalikeIsReplaced | src/json_parser.cpp:51-56 | An application object that looks like a placeholder is silently replaced by the bytes of its member |
| JsonParser.Parser.Decode | src/json_parser.cpp:182-281 | The object with its scanning loops does what the decoder function says, and keeps its invariant |
| JsonParser.Parser.ScanHeader | src/json_parser.cpp:207-268 | The index-based scan reads what the functional description reads |
| Base64.TableInverts | src/http_polling_transport.cpp:82-90 | The decoder's ranges invert the encoder's table |
| Base64.EncodeLoop | src/proxy.cpp:14-30 | The loop computes the encoding group by group |
| Base64.DecodeLoop | src/http_polling_transport.cpp:92-110 | The loop computes the decoding, with the same failures |
| Base64.DecodeInvertsEncode | src/http_polling_transport.cpp:92-116 | Decoding undoes encoding in all padding cases; the length is 4*ceil(n/3) |
| Base64.EncodeAlphabet | src/proxy.cpp:10-30 | Encoded text contains only the alphabet and padding |
| Base64.AlphabetIs | src/proxy.cpp:10-11 | The table of RFC 4648, section 4, by character code |
| Base64.GroupBits | src/proxy.cpp:18-27 | A group holds the bits of its bytes in order and is padded exactly where a byte is missing |
| Base64.TestVectors | src/proxy.cpp:14-30 | Test vectors of RFC 4648, section 10 |
| Polling.SplitPayload | src/http_polling_transport.cpp:125-140 | The splitting loop computes the nonempty pieces between separators |
| Polling.SplitIsClean | src/http_polling_transport.cpp:125-140 | No piece is empty or contains the separator |
| Polling.SplitConserves | src/http_polling_transport.cpp:125-140 | The pieces concatenate to the payload without its separators |
| Polling.SplitInvertsJoin | src/http_polling_transport.cpp:125-140 | Splitting the join of nonempty separator-free packets returns them |
| Polling.Transport.DeliverOne | src/http_polling_transport.cpp:626-647 | One packet: session id from a handshake that parses, binary decoded or dropped, every other text passed on whole |
| Polling.PassedUp | src/http_polling_transport.cpp:624-648 | Packet by packet binary ones go up as their bytes and all others, handshakes and pings included, as they are |
| Polling.GarbledIsDropped | src/http_polling_transport.cpp:636-643 | A binary packet that cannot be decoded is dropped without a trace |
| Polling.SidIsLastHandshake | src/http_polling_transport.cpp:627-635 | The session id is that of the last handshake that parses, or the one before the batch |
| Polling.DispatchIs | src/engineio_client.cpp:115-180 | Of all text packets only those of type 4 reach the parser, without their type |
| Polling.WireIs | src/http_polling_transport.cpp:113-116 | Literal frames on the wire |
| Polling.Transport.Deliver | src/http_polling_transport.cpp:622-649 | The loop passes up the packets before the closing flag was seen, in order, and keeps the last session id |
| Polling.BatchingIrrelevant | src/http_polling_transport.cpp:622-649 | However packets are batched into bodies, the parser receives the same frames |
| Polling.FrameRoundTrip | src/engineio_client.cpp:80-176 | One frame sent, delivered and dispatched is that frame |
| Polling.PollingRoundTrip | src/http_polling_transport.cpp:113-140 | Encode, prefix, base64, batch, deliver, dispatch and decode give the packet back |
| Polling.PollingRoundTripIff | src/http_polling_transport.cpp:113-140 | Which packets survive that path, in both directions |
| EngineCore.SendReachesPeer | src/engineio_client.cpp:80-94 | Dispatching what `send` passes on yields the frame |
| EngineCore.ReceiveEffects | src/engineio_client.cpp:115-180 | Whatever the message: what reaches the parser, that only pings are answered, and which packets count as a sign of life |
| EngineCore.ReceiveFlags | src/engineio_client.cpp:115-180 | Only a handshake and a close packet touch the flags, and how |
| EngineCore.ReceiveSession | src/engineio_client.cpp:128-163 | A handshake that parses sets session and timing to its own values, one that does not clears the session only, nothing else touches them; the application is told of handshakes and close packets only |
| EngineCore.OpenCallEffects | src/engineio_client.cpp:52-63 | An open call asks the transport to connect iff no close has begun |
| EngineCore.CloseCallEffects | src/engineio_client.cpp:65-71 | The first close closes the transport and stops the heartbeat, a later one changes nothing |
| EngineMachine.WorkerGoesOnIff | src/engineio_client.cpp:190-206 | When a worker goes on from its loop condition and when it goes to sleep |
| EngineMachine.InvKept | src/engineio_client.cpp:52-248 | Every step of every thread keeps the account of open calls, the lock of a starter, the one close behind the mark and the pending notifications |
| EngineTheorems.OpensBehindMark | src/engineio_client.cpp:52-71 | Behind the mark no open call passes its test, and exactly those that had passed it reach the transport, each once |
| EngineTheorems.LateConnectIff | src/engineio_client.cpp:52-63 | Behind the mark the transport can still be asked to connect if and only if an open call is past its test |
| EngineTheorems.LateStartIff | src/engineio_client.cpp:182-188 | Behind the mark a worker can still be started if and only if a starter is past its test, and only one |
| EngineTheorems.NoStartAfterStopRequest | src/engineio_client.cpp:65-71 | No worker is started after the close has requested the stop |
| EngineTheorems.StopReachesWorker | src/engineio_client.cpp:188-248 | A worker asleep under a stop request has a notification coming, and behind the mark no worker goes to sleep |
| EngineTheorems.OpenAfterCloseIff | src/engineio_client.cpp:52-71 | After a finished close the engine is open if and only if a handshake was handled since with neither a loss nor a stale open call after it |
| EngineSerial.WorkersSucceedEachOther | src/engineio_client.cpp:182-237 | While the transport reports one thing at a time no joinable handle is overwritten and at most one worker is in its loop |
| EngineSerial.OverlappingHandshakesTerminate | src/engineio_client.cpp:182-188 | Two handshakes at once can overwrite a joinable handle |
| EngineSerial.HandshakeReopens | src/engineio_client.cpp:128-153 | A run in which an opened and closed engine is open again |
| EngineSerial.OpenRacesClose | src/engineio_client.cpp:52-71 | A run in which the mark is set while an open call is past its test |
| EngineSerial.StartRacesClose | src/engineio_client.cpp:65-71 | A run in which it is set while a starter is past its test |
| Client.Engine.Send | src/engineio_client.cpp:80-94 | Exactly while open one more packet goes to the transport, and the peer's dispatch turns it back into the frame |
| Client.Engine.HandleMessage | src/engineio_client.cpp:115-180 | For every message what the parser is given, what is answered, who is told, and session and timing, each in terms of the message alone |
| Client.Client.UpdateAll | src/client.cpp:81 | The loop over the registry updates every socket once |
| Client.Client.Connect | src/client.cpp:74-90 | Sockets resumed, budget reset, a fresh engine installed and opened |
| Client.Client.SocketFor | src/client.cpp:358-377 | One socket per normalised namespace, refusing timed emissions if made after shutdown began; the auth kept; a CONNECT sent exactly for a new socket on an open engine |
| Client.Client.Close | src/client.cpp:398-419 | Every socket cancelled, disconnected and purged of its timed packets and otherwise untouched, a DISCONNECT sent exactly for the connected ones, the installed engine closed and still installed: the client is shut down |
| Client.Client.ScheduleReconnect | src/client.cpp:230-256 | The next attempt number is announced with its back-off delay, within bounds, or failure once the budget is spent; the worker starts unless the flag is set by then |
| Client.Client.EngineClosed | src/client.cpp:216-228 | Sockets disconnected; a reconnect scheduled or failure reported exactly without shutdown and with reconnecting enabled |
| Client.Client.Reconnect | src/client.cpp:256-279 | A fresh engine, opened unless the flag is set by then, or nothing at all once shut down |
| Client.Client.Fallback | src/client.cpp:192-201 | At most one switch to polling per connect and none after shutdown |
| ClientCore.ShutDownLasts | src/client.cpp:92-117 | After a close no sequence of calls but a connect undoes the shutdown, installs an engine or announces a reconnect |
| ClientRefinement.ReplaceRefines | src/client.cpp:92-117 | `ensure_engineio` run by itself is a run of the concurrent machine, refused or not |
| ClientRefinement.CallsAreRuns | src/client.cpp:74-419 | Every sequence of calls of the client object is a run of the concurrent machine through the same values |
| ClientRefinement.CloseCompletes | src/client.cpp:398-419 | From every state in which the registry is unlocked a close on a free thread can run to completion by itself, and then does what the object's close does |
| ClientShutdown.InvKept | src/client.cpp:74-436 | Every step of every thread keeps the client's invariant, sockets included |
| ClientShutdown.EngineKept | src/client.cpp:92-117 | A closer that read the engine holds the one still installed |
| ClientShutdown.SuccessionKept | src/client.cpp:92-117 | An engine about to be installed is new; one about to be opened is installed or superseded; a superseded one is closing exactly if it was when replaced |
| ClientShutdown.RegistryKept | src/client.cpp:358-419 | A socket registered while a close is past its snapshot is quiet |
| ClientShutdown.DrainKept | src/client.cpp:421-436 | Sockets a `sync_close` waited for stay idle |
| ClientShutdown.ClosedEngineStays | src/client.cpp:92-117 | Between a completed close and the next connect the installed engine is closed, stays installed, and no `open` on it gets through |
| ClientShutdown.OnlySupersededOpens | src/engineio_client.cpp:52-54 | After a close an `open` gets through if and only if its engine had been superseded without being closing at that time; never on the installed one |
| ClientShutdown.SupersededEngineMayOpen | src/client.cpp:256-279 | A run in which that happens: a reconnect worker installs, a second connect supersedes it, a close completes, the worker opens |
| ClientShutdown.SocketsQuietAfterClose | src/client.cpp:358-419 | After a close every socket, whenever created, has no live timed callback and refuses timed emissions |
| ClientShutdown.NoCallbackAfterSyncClose | src/client.cpp:421-436 | When `sync_close` returns no timed callback runs, and none runs until the next connect |
| ClientShutdown.ReconnectBudget | src/client.cpp:230-247 | In every run of the client's machine, where a loss is one step, the announced attempts between connects are 0, 1, 2, ... and at most the configured number |
| Reconnects.SerialBudget | src/client.cpp:224-247 | With test, read, write and announcement as separate steps the same holds while one thread at a time reports a loss or connects |
| Reconnects.OverlappingBudgetIff | src/client.cpp:230-247 | Without that it holds in every run if and only if reconnecting is disabled |
| Reconnects.LossLeads | src/client.cpp:224-247 | The steps of one loss, without interference, do what the single step of the client's machine does |
| WritePump.WritesInOrder | src/websocket_transport.cpp:387-443 | In every run what the stream is given is a prefix of what callers queued before closing, one write is outstanding at most, its payload is the queue's front and the rest is still queued |
| WritePump.AcceptedIsOffered | src/websocket_transport.cpp:387-406 | What enters the queue is everything callers queued before closing was set, read off the steps alone |
| WritePump.WaitsOnlyWhenStalled | src/websocket_transport.cpp:387-443 | Payloads wait without a write only if the last completed write failed or the last attempt to start one found no stream |
| WritePump.EnqueueRestarts | src/websocket_transport.cpp:387-406 | With a stream, the next payload queued starts the write of the oldest one waiting |
| WritePump.Transport.PumpQueue | src/websocket_transport.cpp:408-424 | Hands the front's payload to the stream, or stops |
| WritePump.Transport.QueueWrite | src/websocket_transport.cpp:387-406 | Accepted exactly while not closing, appended behind a write in progress, and written at once if idle with a stream |
| WritePump.Transport.OnWritten | src/websocket_transport.cpp:426-440 | Pops the front, then continues or, on error, stops |
| WritePump.Transport.ShutdownOnStrand | src/websocket_transport.cpp:509-513 | Empties the queue |
| Heartbeat.Watch | src/engineio_client.cpp:182-218 | Silence is reported at the first wake more than interval + timeout after the last message, and no later than 2 * interval + timeout after it |
| EngineUrl.EncodeQueryComponent | src/engineio_url.cpp:14-27 | The loop computes the percent-encoding |
| EngineUrl.EncodeByteIs | src/engineio_url.cpp:17-25 | Which bytes stand for themselves, and the two upper-case digits of the others |
| EngineUrl.DecodeInvertsEncode | src/engineio_url.cpp:14-27 | Percent-decoding undoes it for every byte string |
| EngineUrl.EncodedIsSafe | src/engineio_url.cpp:19-24 | The result has only unreserved characters and `%` |
| EngineUrl.QueryRoundTrip | src/engineio_url.cpp:59-67 | Splitting and decoding the query recovers the pairs |
| EngineUrl.BuildUrl | src/engineio_url.cpp:31-69 | Fails exactly on a reserved key; otherwise origin, normalised path and full query |
| EngineUrl.NormalPathIs | src/engineio_url.cpp:54-57 | An empty path becomes the default one, any other gains only the slashes it lacks |
| EngineUrl.AuthoritySurvives | src/engineio_url.cpp:34-52 | Behind a known scheme the authority goes up to the first `/` or `?` and reaches the URL unchanged |
| EngineUrl.BareAuthoritySurvives | src/engineio_url.cpp:34-52 | The same without a scheme |
| EngineUrl.UrlParts | src/url_parse.cpp:9-23 | Parsing the built URL gives scheme ws or wss, TLS exactly for https and wss, that authority, and the normalised path and the query text as target |
| EngineUrl.BareParse | src/url_parse.cpp:19-23 | A URL without a path has the target `/` |
| EngineUrl.ParseFailsIff | src/url_parse.cpp:11-14 | A URL is refused iff it has no `://` |
| EngineUrl.UrlRoundTripIff | src/engineio_url.cpp:31-69 | The query found behind the first `?` of that target yields EIO, transport and the user's pairs if and only if the path has no `?` |
| EngineUrl.MarkedPathLosesQuery | src/engineio_url.cpp:54-59 | For a path with `?` it does not, whatever the URI and the query |
| EngineUrl.SplitAuthorityIff | src/url_parse.cpp:25-41 | Host and port are recovered iff the authority is not a bracketed address with a colon and no port |
| Backoff.DelayBoundedAndMonotone | src/reconnection.cpp:9-25 | A delay lies in [0, maximum] and does not fall with attempt or jitter sample |
| Backoff.DelayBasics | src/reconnection.cpp:13-19 | The first attempt waits for the initial delay cut at the maximum, delays that are not positive count as none, and the factor is clamped |
| Backoff.JitterSpreads | src/reconnection.cpp:20-24 | The middle sample leaves the delay alone, the ends take away and add the given share of it up to the maximum |
| Backoff.RoundIsNearest | src/reconnection.cpp:25 | Rounding goes to the nearest integer, halves away from zero |
| Backoff.CapHarmlessIff | src/reconnection.cpp:15-19 | The exponent cap changes no delay iff the initial delay is not positive or the maximum is at most 2^62 times it |
| Backoff.CapBoundIsTight | src/reconnection.cpp:15 | A maximum up to 2^62 is always safe, and one above with initial delay 1 is not |
| Backoff.DoublesUntilSaturated | src/reconnection.cpp:15-19 | Without jitter, while the cap is safe, each attempt doubles the delay until the maximum |

## Left out

- Rewriting JSON trees in place: `deconstruct_binary` and `reconstruct_binary` are functions on values, so sharing of nodes while they run is not captured. Arrays and objects are one constructor because all traversals treat their children alike.
- JSON text: printing and parsing are parameters assumed to be inverse, with the facts about first characters listed in `PacketText.Faithful` and, for polling, `Polling.Escapes`. MessagePack and binary subtypes are not modelled.
- Concurrency of objects: the methods of `Client` run without interference; their interleaving is modelled on values as the steps of `ClientMachine`, which shares the functions of `ClientCore`. Likewise `Socket` and `SocketMachine` share `SocketCore`. Engines are numbers in `ClientMachine`, which keeps of an engine only whether it is closing; its other fields are the subject of `EngineMachine`.
- A `connect()` that overlaps a `close()`, and the order of its own actions among other threads: a connect is one step.
- Socket.Socket.Emit: does not model wrap-around of the ack id counter, which is unbounded here.
- Exceptions from callbacks, custom parsers or `send_packet`, allocation failure and its rollback, and a client that is already destroyed when a packet is sent.
- The scheduler's destructor and `stopped` flag, thread join and detach, destructors.
- Heartbeat.Watch: assumes a timer that fires on time and a positive interval, and takes the times of messages as given.
- ClientShutdown.ReconnectBudget: the loss of an engine is one step of `ClientMachine`; its single actions are the subject of `Reconnects`.
- EngineSerial.WorkersSucceedEachOther: that the transport reports one thing at a time, and one loss for the close a worker asks for, is taken from the transports and not proved of them. Within a handshake the parse and the session id are not separate steps.
- Backoff.DelayBoundedAndMonotone: real arithmetic with rounding half away from zero; floating-point rounding is not modelled.
- Polling.Transport.Deliver: a handshake that is JSON but whose `sid` is not a string throws in the source; the model takes the extracted id as a parameter.
- Socket.Socket.Flush: one clock value for the whole loop and no other thread in between; every interleaving, with any clock, is covered by `SocketMachine`.
- Client.Client.ScheduleReconnect: what the handler or another thread does to the flag meanwhile is a parameter.
- Client.Client.Reconnect: the same; the wait for the delay is not modelled.
- Order of packets sent directly by different threads, which the source does not determine.
- Encoding after decoding of base64, because the decoder accepts text that is not canonical.
- WritePump: the TLS pump, which is the same code on another stream.
- Listener registration and dispatch, option setters, proxies, TLS, the HTTP requests of polling and everything done by the I/O library.
