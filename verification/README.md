# The gateway's state machines, verified

This project models the C++ gateway under `gateway/` of the chat system in Dafny and proves what its protocols keep over
whole runs. Every imperative part is a class whose methods follow the code branch by branch; each method is proved
against a specification function, and the theorems are about those functions, over all inputs, all cuttings of a byte
stream into reads, all schedules or all call times. One command from this directory:
`dafny verify --resource-limit 2000000 dfyconfig.toml`.

| file | component | main results |
|---|---|---|
| WsFrames | RFC 6455 framing, with a reference decoder | round trips in all length forms; every byte prefix of concatenated frames decodes to a prefix of the frames |
| WebSocketCodec | encoder and the parser exactly as written | the methods equal their specification functions |
| WsReads | what the written parser delivers | it delivers the sent frames **if and only if** a condition on frame sizes and read sizes holds |
| WsContract | the parser its header file promises | chunk independence and round trip, with no condition |
| WsMessages | fragment reassembly | messages come out whole and in order, with control frames anywhere |
| ConnectionIo | `sendToClient`, ping reply, `handleWrite` | stream conservation over every run; a wakeup is lost exactly when a ping goes unregistered |
| TcpLines | `handleTcpRead` | chunk-independent line splitting; a stream is safe from every cutting iff its lines are short |
| Mailbox | offline mailboxes in Redis | no stranded mailbox, exactly-once FIFO, termination, for any number of gateways |
| Presence | login and logout across gateways | presence is exact between operations iff no connection logs in twice |
| AckTracker | retry tracker and dead-letter pass | lifecycle, backoff in closed form, exact number of due polls |
| RateLimiter | token bucket | the bound of every window, its exact condition for every rate and capacity, tight retry hint |
| GroupManager | two-way group index | agreement after every sequence of operations; when exactly an id is reused |
| GatewayRegistry | heartbeats, discovery, eviction | a gateway that registers and keeps its heartbeat is never evicted and always found; the exact exception |
| Ratchet | message ratchet | forward secrecy; attempt k opens message j iff j = k; after a fault the stream recovers iff it is not shifted |
| PriorityQueue | priority drain | termination, permutation, order, next-round delivery |

## Where the code departs from its own documentation

* The frame parser. `WebSocketCodec.h:122-132` promises that a call parses exactly one frame or says that no more can be
  done with the bytes in hand, and the documentation around it that frames may arrive in any number of reads. The code
  departs from this in five places: the extended length accumulates on top of the 126/127 marker
  (`WebSocketCodec.cpp:253, 283-284`), the basic-header stage returns false with bytes left (`274`), an empty payload
  never completes (`329`), a partial payload is kept in the caller's frame, which the caller drops (`332`,
  `EpollServer.cpp:1028`), and an oversize frame stays in the mask-key stage while the caller looks for the payload stage
  (`311-315`, `EpollServer.cpp:1034`). So there are two models. WebSocketCodec.dfy and WsReads.dfy keep the code as it is
  and prove exactly when it delivers what was sent; WsContract.dfy repairs the five places, each marked where it is, and
  proves the promise outright.
* The ping branch answers into the write buffer and ignores the result of `epoll_ctl` (`EpollServer.cpp:1093`), on which
  `sendToClient` disconnects: ConnectionIo.PongWakes says exactly when the reply is then left without a wakeup, and
  ConnectionIo.AwakeIff in exactly which runs that never happens.
* The token bucket drops the part of a microsecond at every refill that adds a whole one, and keeps it otherwise. The bound
  capacity + rate * window then holds up to one microsecond of tokens. RateLimiter.ExactBoundIff says for every rate and
  capacity exactly when it holds as it stands (RateLimiter.GatewayBucket: with the gateway's 10 per second and 20, only
  if nothing was left uncounted at the first call), and RateLimiter.ProbeHarmlessIff when an extra refill is harmless.
* A group created while INCR fails gets the empty id (`GroupManager.cpp:18-26, 39`): GroupManager.ReusedIff says exactly
  when an id is handed out twice.
* A gateway that is found silent and registers again before the finder's SREM is still removed:
  GatewayRegistry.LateRemoval reaches that from an empty registry. A gateway that registers while no discovery knows it is
  safe (GatewayRegistry.RegisteredNeverEvicted); in general it has to be a moment with no removal of it under way, which
  GatewayRegistry.SecureIff shows to be exactly what a live gateway needs.
* A second login on one connection leaves stale or double presence entries (`EpollServer.cpp:1157-1199` has no guard):
  Presence.ExactIffFirstLogins and Presence.SecondLoginRun.
* The receive chain of a session moves before the seal is checked (`E2EECrypto.cpp:389-410`). A message altered in its
  own place therefore costs only itself (Ratchet.AlteredInPlace), but an extra ciphertext, or one lost or cut below the
  minimum length, shifts all later ones, and nothing opens any more: Ratchet.RecoversIff and Ratchet.AfterOneFault.

## Modelling choices

A byte is an integer from 0 to 255, a length in the frame parser a 64-bit unsigned integer that wraps explicitly. A
`write` takes any positive count, reports EAGAIN or fails; a `read` yields any non-empty piece (up to 1024 bytes where
that matters). One Redis command or Lua script is one atomic step, and steps of any number of gateways interleave freely
in Mailbox, Presence and GatewayRegistry. Clocks are non-decreasing integers: seconds for the retry tracker and the
registry, nanoseconds for the token bucket. Token counts are real numbers. Ghost histories (`wire`, `handed`, `pushed`,
`popped`, `delivered`) record what no field of the program keeps. A connection's wire history starts after the WebSocket
upgrade, whose reply bypasses the write buffer (`EpollServer.cpp:876-885`).

## Model

| member | source | states |
|---|---|---|
| WsFrames.BigEndianInverse | gateway/src/WebSocketCodec.cpp:44-57 | Writing a length big-endian in a given number of bytes and reading it back gives the length, for every length that fits. |
| WsFrames.MaskBits | gateway/src/WebSocketCodec.cpp:68-71 | Masking is the exclusive or, bit for bit, of byte i and byte i mod 4 of the key (section 5.3 of RFC 6455). |
| WsFrames.BitsDetermine | gateway/src/WebSocketCodec.cpp:68-71 | Eight bits determine a byte, so MaskBits fixes the result. |
| WsFrames.MaskInvolution | gateway/src/WebSocketCodec.cpp:68-71 | Masking twice with the same key gives the data back. |
| WsFrames.HeaderBytes | gateway/src/WebSocketCodec.cpp:34-57 | The header in numbers, in every length form: FIN and opcode, MASK and length code 126 or 127, and the length with its most significant byte first. |
| WsFrames.ShortHeader | gateway/src/WebSocketCodec.cpp:34-43 | The same for lengths up to 125. |
| WsFrames.ControlIff | gateway/src/WebSocketCodec.cpp:342-342 | A frame is a control frame exactly from opcode 8 on. |
| WsFrames.ServerRoundTrip | gateway/src/WebSocketCodec.cpp:34-63 | A server frame of any payload below 2^64 bytes, followed by anything, decodes to itself and its own size. |
| WsFrames.ClientRoundTrip | gateway/src/WebSocketCodec.cpp:231-350 | A masked client frame in any of the three length forms decodes to its unmasked payload, opcode and FIN bit, whatever follows. |
| WsFrames.DecodeLocal | gateway/src/WebSocketCodec.cpp:231-350 | A decoded frame depends only on the bytes it covers; with fewer of them it is incomplete. |
| WsFrames.PrefixDecodes | gateway/src/EpollServer.cpp:1343-1354 | Any byte prefix of concatenated server frames decodes to a prefix of the frame list and a proper part of the next frame. |
| WsFrames.UniquelyDecodable | gateway/src/WebSocketCodec.cpp:78-130 | Two lists of server frames with the same bytes are the same list. |
| WsFrames.WholeStreamDecodes | gateway/src/WebSocketCodec.cpp:78-130 | All the bytes decode to all the frames, with nothing over. |
| WsFrames.MinimalFormIsShortest | gateway/src/WebSocketCodec.cpp:44-57 | The chosen length form can hold the length, and no form that can is shorter (section 5.2 of RFC 6455). |
| WebSocketCodec.AppendFrameHeader | gateway/src/WebSocketCodec.cpp:34-63 | Appends exactly the header that the reference decoder inverts, in the minimal form, and keeps what was there. |
| WebSocketCodec.ApplyMask | gateway/src/WebSocketCodec.cpp:68-71 | The loop leaves in every byte, bit for bit, its exclusive or with byte i mod 4 of the key. |
| WebSocketCodec.EncodeText | gateway/src/WebSocketCodec.cpp:78-83 | The frame decodes to one final, unmasked frame of opcode 1 with exactly the payload given. |
| WebSocketCodec.EncodeBinary | gateway/src/WebSocketCodec.cpp:88-93 | The same with opcode 2. |
| WebSocketCodec.EncodeClose | gateway/src/WebSocketCodec.cpp:99-110 | The frame decodes to a control frame of opcode 8 whose payload is the status code, high byte first, and the reason. |
| WebSocketCodec.EncodePong | gateway/src/WebSocketCodec.cpp:115-130 | The frame decodes to a control frame of opcode 10 carrying the given data. |
| WebSocketCodec.TryParse | gateway/src/WebSocketCodec.cpp:231-350 | One call of the parser as written: the payload stage always has consumed <= needed = payload length <= limit, and a successful call consumes bytes. |
| WebSocketCodec.WsReader.TryParseFrame | gateway/src/WebSocketCodec.cpp:231-350 | The four stages, erasing from the buffer and updating the state in place, do what TryParse says; the state stays valid. |
| WebSocketCodec.WsReader.OnRead | gateway/src/EpollServer.cpp:1023-1045 | One read: appends, then parses into fresh frames until none comes out; the inner loop terminates. |
| WebSocketCodec.WsReader.HandleWsRead | gateway/src/EpollServer.cpp:998-1074 | Any number of reads hand on exactly the frames of Feed. |
| WsReads.ReadLengthValue | gateway/src/WebSocketCodec.cpp:253-284 | The length the code reads: right in the 7-bit and 64-bit forms, 126 * 65536 too much in the 16-bit form. |
| WsReads.ParseStep | gateway/src/WebSocketCodec.cpp:231-350 | One call that holds any part of a frame, at any point inside it, yields the frame, more of its header, or a state that has lost bytes. |
| WsReads.LostBytes | gateway/src/WebSocketCodec.cpp:326-346 | A payload split after its first parsed byte never comes out as sent. |
| WsReads.NeverComesOut | gateway/src/WebSocketCodec.cpp:311-329 | A frame with an empty payload, an oversize one or a 16-bit length is never delivered, nor is anything after it. |
| WsReads.DeliversExactly | gateway/src/EpollServer.cpp:998-1045 | For every list of well-formed client frames and every cutting into reads, the code as written delivers exactly that list if and only if OnTime holds, a condition on form, lengths and read sizes alone. |
| WsReads.TooFewReads | gateway/src/WebSocketCodec.cpp:274 | n > 0 frames in n reads or fewer are not delivered as sent, however they are cut. |
| WsReads.OnlyReadableLengths | gateway/src/WebSocketCodec.cpp:253-329 | With minimal length forms only payloads of 1 to 125 bytes, or from 65536 up to the limit, are ever delivered as sent. |
| WsReads.HeardIff | gateway/src/WebSocketCodec.cpp:231-350 | Some cutting into reads delivers a list of frames exactly if and only if each has a 7-bit or 64-bit length and a payload from 1 byte to the limit. |
| WsReads.HeardInReadsIff | gateway/src/EpollServer.cpp:999-1002 | With reads of 1 to 1024 bytes a single frame can be delivered if and only if it is also at most 2049 bytes long in all. |
| WsReads.ReadableHeard | gateway/src/EpollServer.cpp:999-1045 | A cutting that delivers any readable frames, into reads of at most 1024 bytes if no frame is longer than 2049. |
| WsReads.FirstFrameFits | gateway/src/EpollServer.cpp:999-1002 | With such reads the first frame of a connection is at most 2049 bytes long if it is delivered, so in minimal form its payload has 1 to 125 bytes. |
| WsReads.HelloInOneRead | gateway/src/WebSocketCodec.cpp:274 | The promise fails on a two-byte text message that arrives in one read: nothing is delivered. |
| WsReads.UnmaskedSilent | gateway/src/WebSocketCodec.cpp:245-251 | A client that does not mask its first frame is never heard, in any cutting into reads. |
| WsContract.JudgeLocal | gateway/include/WebSocketCodec.h:122-132 | Once the front of a stream is decided (a whole frame, an unmasked one, an oversize one), later bytes change nothing. |
| WsContract.ParseMore | gateway/include/WebSocketCodec.h:122-132 | Parsing x and then the rest with y behind it is parsing x + y: the core of chunk independence. |
| WsContract.ClosedForGood | gateway/src/EpollServer.cpp:1034-1043 | After an oversize frame no further byte changes what is delivered. |
| WsContract.JudgeClient | gateway/src/WebSocketCodec.cpp:311-315 | A client frame is delivered unmasked if its payload is within the limit and otherwise closes the connection. |
| WsContract.UnmaskedStops | gateway/src/WebSocketCodec.cpp:245-251 | An unmasked frame stops the stream: exactly the frames before it are delivered, and its bytes stay. |
| WsContract.StreamRoundTrip | gateway/include/WebSocketCodec.h:122-132 | Every list of client frames within the limit, in any length forms, parses back to itself with nothing over. |
| WsContract.FrameParser.TryParseFrame | gateway/include/WebSocketCodec.h:122-132 | True with exactly one frame, and its bytes gone, if and only if a whole frame is pending; otherwise nothing pending is lost and the state shows an oversize frame if and only if there is one. |
| WsContract.FrameParser.OnRead | gateway/src/EpollServer.cpp:1023-1045 | After each read the frames delivered and the closing of the connection are those of all bytes received so far. |
| WsContract.FrameParser.HandleWsRead | gateway/src/EpollServer.cpp:998-1045 | What any sequence of reads delivers, and whether it closes, depends on the concatenated bytes only. |
| WsContract.Receive | gateway/include/WebSocketCodec.h:122-132 | Every list of client frames within the limit, in every cutting into reads, is delivered exactly, in order and unmasked. |
| WsMessages.WsSession.AppendToReassembly | gateway/src/WebSocketCodec.cpp:366-368 | Adds the payload behind what was collected. |
| WsMessages.WsSession.FinalizeReassembly | gateway/src/WebSocketCodec.cpp:374-378 | Returns all that was collected and empties the buffer. |
| WsMessages.WsSession.OnFrame | gateway/src/EpollServer.cpp:1047-1071 | One frame has exactly the effect of Handle on buffer, flag, dispatched messages and pongs. |
| WsMessages.WsSession.OnFrames | gateway/src/EpollServer.cpp:1027-1072 | The same for a run of frames. |
| WsMessages.BufferEmptyOutsideMessages | gateway/src/EpollServer.cpp:1047-1071 | After any frames in any order the reassembly buffer is empty whenever the fragmented flag is off, and dispatched messages are never taken back. |
| WsMessages.PayloadsConserved | gateway/src/EpollServer.cpp:1054-1071 | Whatever frames come in whatever order, well formed or not: every data byte is in a dispatched message or in the buffer, in order, and each final data frame dispatches one message. |
| WsMessages.OpcodeRemembered | gateway/src/WebSocketCodec.cpp:356-361 | Which frames start a fragmented message, a stray continuation included, and that their opcode is kept. |
| WsMessages.CloseEnds | gateway/src/EpollServer.cpp:1101-1107 | A close frame (opcode 8) ends the session: no later frame is dispatched or answered. |
| WsMessages.ControlFramesTransparent | gateway/src/EpollServer.cpp:1048-1051 | Taking the pings and pongs out of a stream changes nothing but the pongs sent. |
| WsMessages.RunMessages | gateway/src/EpollServer.cpp:1054-1071 | Fragmented messages one after the other dispatch exactly their concatenated payloads. |
| WsMessages.Reassembles | gateway/src/EpollServer.cpp:1047-1071 | Any messages in any fragments, with pings and pongs anywhere, are dispatched exactly, in order, with nothing left over, and each ping is answered with its payload. |
| WsMessages.DispatchedSoFar | gateway/src/EpollServer.cpp:1047-1071 | At every moment the messages dispatched are a prefix of those sent. |
| WsMessages.WireToMessages | gateway/src/EpollServer.cpp:998-1111 | Parser and reassembly together: the bytes of masked, fragmented messages with control frames between give exactly the messages, and the payloads of the frames of opcode 9 are answered. |
| ConnectionIo.Connection.Write | gateway/src/EpollServer.cpp:1361-1361 | The socket: a positive count puts that many bytes on the wire, EAGAIN and errors put none. |
| ConnectionIo.Connection.WriteAll | gateway/src/EpollServer.cpp:1360-1382 | The write loop terminates having put a prefix of the data on the wire. |
| ConnectionIo.Connection.SendToClient | gateway/src/EpollServer.cpp:1335-1383 | Buffer, flag, interest and wire afterwards are those of Send for what the kernel did. |
| ConnectionIo.Connection.OnPing | gateway/src/EpollServer.cpp:1083-1095 | The pong goes to the buffer only; the flag is set whether or not epoll_ctl worked. |
| ConnectionIo.Connection.HandleWrite | gateway/src/EpollServer.cpp:1401-1442 | Flushes a prefix; clears flag and interest only when all is written. |
| ConnectionIo.Connection.Disconnect | gateway/src/EpollServer.cpp:804-843 | The connection is dead and its buffer gone; the wire stays. |
| ConnectionIo.SendConserves | gateway/src/EpollServer.cpp:1335-1383 | A send keeps wire + buffer = everything handed over, and pending exactly when the buffer is non-empty. |
| ConnectionIo.WritableConserves | gateway/src/EpollServer.cpp:1401-1442 | So does a write event. |
| ConnectionIo.PongConserves | gateway/src/EpollServer.cpp:1083-1095 | So does a ping. |
| ConnectionIo.PongWakes | gateway/src/EpollServer.cpp:1088-1094 | After a ping the bytes have a wakeup if and only if epoll_ctl worked or writability was watched before. |
| ConnectionIo.RunConserves | gateway/src/EpollServer.cpp:1335-1442 | Over every run: live means wire + buffer = all handed over, dead means the wire is a prefix of it, and pending iff buffer non-empty. |
| ConnectionIo.AwakeIff | gateway/src/EpollServer.cpp:1083-1442 | Up to any point of any run, unsent bytes were always watched for if and only if every ping on the live connection found epoll_ctl working or writability already watched. |
| ConnectionIo.NothingLost | gateway/src/EpollServer.cpp:1335-1442 | On a live connection wire + buffer is the concatenation of all that was encoded for sending, in order. |
| ConnectionIo.PlainWire | gateway/src/EpollServer.cpp:1346-1382 | On a plain connection, wire + buffer is the concatenation of the messages themselves while it lives, and the wire a prefix of it always. |
| ConnectionIo.FramesKept | gateway/src/EpollServer.cpp:1086-1345 | On a WebSocket connection what was handed over is, event by event, a final frame of opcode 1 with the message, and one of opcode 10 with the ping's own payload. |
| ConnectionIo.ClientSees | gateway/src/EpollServer.cpp:1335-1442 | Whatever was flushed, dead or alive, the client decodes a prefix of exactly those frames and an unfinished part of the next. |
| ConnectionIo.LivesIff | gateway/src/EpollServer.cpp:1360-1442 | A connection ends exactly with a write error, a failing epoll_ctl when its first bytes have to wait, or its own end. |
| ConnectionIo.FlushedMeansSent | gateway/src/EpollServer.cpp:1354-1442 | When the kernel takes all, all handed over is on the wire and nothing pending; a send never writes past waiting bytes. |
| ConnectionIo.WireShowsWholeFrames | gateway/src/EpollServer.cpp:1343-1354 | Whatever was flushed, a client decodes a prefix of the frames handed over and an unfinished part of the next. |
| ConnectionIo.QuietMeansSent | gateway/src/EpollServer.cpp:1401-1442 | When writability is no longer watched, everything handed over is on the wire. |
| TcpLines.Rebuild | gateway/src/EpollServer.cpp:980-986 | Lines, their newlines and the tail rebuild the text, and no line has a newline inside. |
| TcpLines.OnlySplit | gateway/src/EpollServer.cpp:980-986 | No other lines and tail do: the split is unique. |
| TcpLines.TcpConnection.SplitLines | gateway/src/EpollServer.cpp:980-986 | The find-and-erase loop handles exactly the newline-ended lines and keeps the tail. |
| TcpLines.TcpConnection.TakePiece | gateway/src/EpollServer.cpp:934-993 | One read has the effect of Take, whose branches UpgradeHandsOn, FailedUpgradeSplits, MetricsAnswered and SplitsAsOne state in their own terms. |
| TcpLines.TcpConnection.HandleTcpRead | gateway/src/EpollServer.cpp:913-995 | One readable event: the reads in turn until none is left, the connection ends or it becomes a WebSocket. |
| TcpLines.UpgradeHandsOn | gateway/src/EpollServer.cpp:958-976 | An upgrade that works hands exactly the bytes behind the first header end to the WebSocket reader, and handles no line. |
| TcpLines.FailedUpgradeSplits | gateway/src/EpollServer.cpp:964-993 | One that fails drops the request, and the bytes behind it are split into lines. |
| TcpLines.MetricsAnswered | gateway/src/EpollServer.cpp:940-955 | A complete metrics request is answered once, closes the connection and handles no line; nothing else is answered. |
| TcpLines.EveryByte | gateway/src/EpollServer.cpp:913-995 | For every stream and every cutting, until a metrics request: the bytes read are, in order, handled lines, request headers, and what is buffered or was handed on; an upgraded connection had its request just before that. |
| TcpLines.SplitsAsOne | gateway/src/EpollServer.cpp:934-993 | While no tail overflowed, any reads have the effect of splitting all their bytes at once. |
| TcpLines.SurvivesExactly | gateway/src/EpollServer.cpp:988-993 | A connection survives if and only if at the end of every read the unfinished line is at most 65536 bytes; in any case the lines handled are the split of a prefix of the stream that ends with a read. |
| TcpLines.NothingDropped | gateway/src/EpollServer.cpp:934-993 | On a surviving connection the handled lines and the read buffer rebuild every byte received. |
| TcpLines.ChunkIndependent | gateway/src/EpollServer.cpp:913-995 | If all lines are at most 65536 bytes, every cutting into reads handles exactly the newline split of the stream. |
| TcpLines.SafeIffShort | gateway/src/EpollServer.cpp:988-993 | A stream survives every cutting if and only if all its lines, the unfinished one too, are at most 65536 bytes. |
| TcpLines.HugeLineCloses | gateway/src/EpollServer.cpp:914-993 | A line of 65536 + 1024 bytes or more closes the connection in every cutting into reads of at most 1024 bytes. |
| Mailbox.Redis.PushMessage | gateway/src/RedisClient.cpp:375-409 | Queues the message and marks the user pending in one step; an empty name is refused without effect. |
| Mailbox.Redis.DrainPendingUsers | gateway/src/RedisClient.cpp:447-484 | Returns every pending user once and leaves none pending. |
| Mailbox.Redis.PopMessages | gateway/src/RedisClient.cpp:415-442 | Undisturbed, the LPOP loop returns the whole queue in order, ends, and touches no other queue. |
| Mailbox.Redis.PushOfflineMessages | gateway/src/EpollServer.cpp:1472-1479 | Undisturbed, one pass serves every pending user exactly once with the whole queue, empties it, and leaves the other queues alone. |
| Mailbox.NoStrandedMailbox | gateway/src/RedisClient.cpp:391-459 | In every reachable state of any number of gateways a non-empty queue is pending or still on some gateway's list. |
| Mailbox.ExactlyOnceFifo | gateway/src/RedisClient.cpp:375-442 | For each mailbox the push history is what all gateways popped, in LPOP order, followed by the queue. |
| Mailbox.PushedIsPoppedOrQueued | gateway/src/RedisClient.cpp:375-442 | End to end: the messages pushed for a user in a run are those popped from the mailbox, in order, and those still queued. |
| Mailbox.BatchInOrder | gateway/src/RedisClient.cpp:415-442 | Each gateway's share of a mailbox is an in-order subsequence of its push history. |
| Mailbox.ActWorks | gateway/src/EpollServer.cpp:1472-1479 | Every step other than a push or an idle poll makes the remaining work smaller. |
| Mailbox.PassesTerminate | gateway/src/EpollServer.cpp:1472-1479 | Once pushes stop, no schedule has more than that many busy steps. |
| Mailbox.DryMeansEmpty | gateway/src/EpollServer.cpp:1472-1479 | When nothing is left to do, every mailbox is empty. |
| Presence.Redis.UserLogin | gateway/src/RedisClient.cpp:114-167 | Adds the device entry and marks the user online in one step; an empty name changes nothing. |
| Presence.Redis.UserLogout | gateway/src/RedisClient.cpp:175-227 | Removes the entry, and the user from the online set if it was the last. |
| Presence.Server.HandleAccept | gateway/src/EpollServer.cpp:767-800 | A new connection that is nobody's. |
| Presence.Server.PerformLogin | gateway/src/EpollServer.cpp:1250-1329 | Entry in Redis, name on the connection and one more entry in the user map, or no change at all. |
| Presence.Server.Remove | gateway/src/EpollServer.cpp:823-823 | Erases every copy of the descriptor and keeps the order of the others. |
| Presence.Server.DisconnectClient | gateway/src/EpollServer.cpp:804-843 | Takes the connection out of all three tables; an unknown descriptor changes nothing. |
| Presence.LoginDone | gateway/src/EpollServer.cpp:1262-1270 | An undisturbed login makes that connection, and it alone, present under the name: in Redis, on the connection, and last in the user map. |
| Presence.LogoutDone | gateway/src/EpollServer.cpp:804-843 | The end of a logged-in connection removes it and nothing else, and the user goes offline exactly with the last device. |
| Presence.WithoutParts | gateway/src/EpollServer.cpp:823-823 | Removing a descriptor keeps all others, in order. |
| Presence.ActConsistent | gateway/src/EpollServer.cpp:804-843 | One step of any gateway, login or logout half done elsewhere included, keeps all tables consistent. |
| Presence.SecondLoginBreaks | gateway/src/EpollServer.cpp:1262-1270 | A second login on a connection leaves the finished gateway with a stale or a double entry at once. |
| Presence.ExactIffFirstLogins | gateway/src/EpollServer.cpp:1157-1199 | Over every interleaved run, presence is exact between operations (online iff devices, device iff live login iff user-map entry, no duplicates, no empty entries) if and only if no connection logs in twice. |
| Presence.SecondLoginRun | gateway/src/EpollServer.cpp:1157-1199 | For any connection and two names, a run of five steps after which the connection is logged in under the second name and still present under the first. |
| Presence.LoggedInIsPresent | gateway/src/RedisClient.cpp:114-227 | In every run, repeated logins included, every logged-in connection of an idle gateway is in Redis and in the user map, and its user is online. |
| AckTracker.Tracker.TrackMessage | gateway/src/AckTracker.cpp:17-33 | Files a new entry due in one second and changes no other. |
| AckTracker.Tracker.AcknowledgeMessage | gateway/src/AckTracker.cpp:38-52 | Takes the entry out, and says whether it was there. |
| AckTracker.Tracker.GetPendingRetries | gateway/src/AckTracker.cpp:57-70 | Exactly the entries that are due and below the limit, each once. |
| AckTracker.Tracker.MarkRetryDone | gateway/src/AckTracker.cpp:74-92 | Counts the retry; the next one is two seconds after the first and four after the second. |
| AckTracker.Tracker.DrainDeadLetters | gateway/src/AckTracker.cpp:97-115 | Returns and removes exactly the entries at the limit, each once. |
| AckTracker.Tracker.PurgeExpired | gateway/src/AckTracker.cpp:127-143 | Removes exactly the entries older than 300 seconds with no retry left. |
| AckTracker.Tracker.CheckAckRetries | gateway/src/EpollServer.cpp:1448-1466 | One pass resends each due entry once, marks it, and takes out exactly the exhausted ones. |
| AckTracker.PassIsPoll | gateway/src/EpollServer.cpp:1448-1458 | What the pass resends and marks is exactly the entries with fewer than three retries whose time has come, each once. |
| AckTracker.MarkedAt | gateway/src/AckTracker.cpp:57-92 | In a pass an entry that is not due is untouched, and one that is due is put off by exactly its next backoff step from when it was marked. |
| AckTracker.PassInNumbers | gateway/include/AckTracker.h:27-30 | Found due first, an entry is next due 2 seconds after it was marked; the second time, 4. |
| AckTracker.Lifecycle | gateway/src/AckTracker.cpp:17-115 | In every reachable state an id is in exactly one of pending, acknowledged, dead; it was resent retry_count times; next_retry >= send_time + 2^(retry_count+1) - 1; and it was given up only after N resends and 2^N - 1 seconds. |
| AckTracker.EndsOnce | gateway/src/AckTracker.cpp:38-115 | An id that was acknowledged or given up stays so. |
| AckTracker.SevenSeconds | gateway/include/AckTracker.h:27-30 | With three retries nothing is given up before seven seconds. |
| AckTracker.GivenUpBy | gateway/src/EpollServer.cpp:1448-1466 | If every pass is over at most d seconds after an entry falls due, one never acknowledged is given up by send + 2^N - 1 + N * d. |
| AckTracker.GivenUpInNumbers | gateway/include/AckTracker.h:27-30 | With three retries: by seven seconds and three times d. |
| AckTracker.LeavesAfterLimit | gateway/src/EpollServer.cpp:1448-1466 | An entry never acknowledged leaves after exactly N due polls, not before and not after. |
| AckTracker.PollUsesRetries | gateway/src/EpollServer.cpp:1448-1458 | The sum of N - retry_count falls by exactly the number of due retries in a pass. |
| AckTracker.NothingToPurge | gateway/src/AckTracker.cpp:127-143 | After a pass purgeExpired finds nothing to remove. |
| RateLimiter.Limiter.DoRefill | gateway/src/RateLimiter.cpp:17-25 | Adds what the truncated elapsed time brings, up to the capacity, and moves the clock only if something was counted. |
| RateLimiter.Limiter.Consume | gateway/src/RateLimiter.cpp:30-37 | Refills, then takes one token if there is one. |
| RateLimiter.Limiter.RetryAfterSeconds | gateway/src/RateLimiter.cpp:41-46 | The hint for the current count, without changing it. |
| RateLimiter.Limiter.Reset | gateway/src/RateLimiter.cpp:68-71 | A full bucket from now on. |
| RateLimiter.CallPotential | gateway/src/RateLimiter.cpp:17-37 | One call keeps 0 <= tokens <= capacity and spends no more than was there and came in. |
| RateLimiter.Potential | gateway/src/RateLimiter.cpp:17-37 | tokens after + accepted <= tokens before + rate * elapsed, over any sequence of calls. |
| RateLimiter.WindowBound | gateway/src/RateLimiter.cpp:17-37 | In every window of every run, accepted <= capacity + rate * (length + one microsecond), and the tokens stay in range throughout. |
| RateLimiter.BoundHolds | gateway/src/RateLimiter.cpp:17-37 | A window stays within capacity + rate * length if what the uncounted remainder at its first call could bring in is no more than what any use of the bucket must leave or spill. |
| RateLimiter.ExactBoundIff | gateway/src/RateLimiter.cpp:17-37 | For every rate, capacity and uncounted remainder: the bound without the microsecond holds in all windows if and only if the remainder brings in no more than the spare of that rate and capacity. |
| RateLimiter.GatewayBucket | gateway/include/Connection.h:63-63 | For the gateway's own 10 tokens per second and capacity 20 the condition is that nothing was left uncounted. |
| RateLimiter.NearlyWhole | gateway/src/RateLimiter.cpp:19-24 | Any time per token has multiples as little short of whole microseconds as wanted, so any uncounted nanosecond can become a token too many. |
| RateLimiter.ProbesInvisible | gateway/src/RateLimiter.cpp:17-37 | With whole-microsecond times, extra refills change no decision and no later token count: the lazy bucket is the continuous one. |
| RateLimiter.TenPerSecond | gateway/include/Connection.h:63-63 | The gateway's bucket in numbers: from empty, a call is accepted from exactly 100 ms on, and after two seconds the bucket is full. |
| RateLimiter.ProbeHarmlessIff | gateway/src/RateLimiter.cpp:17-25 | For any times, exactly when one extra refill costs no tokens. |
| RateLimiter.HintSuffices | gateway/src/RateLimiter.cpp:41-46 | After a refusal, any call at least the hinted time later is accepted. |
| RateLimiter.HintTight | gateway/src/RateLimiter.cpp:41-46 | Measured from the refused call, no call a second or more before the hinted time could have been accepted. |
| GroupManager.Manager.GenerateGroupId | gateway/src/GroupManager.cpp:18-26 | The next number if INCR works, the empty id if not. |
| GroupManager.Manager.CreateGroup | gateway/src/GroupManager.cpp:32-59 | Room, both directions of the creator's membership and the counter, or nothing for an empty name or creator. |
| GroupManager.Manager.JoinGroup | gateway/src/GroupManager.cpp:65-94 | Both directions, or no change when the group does not exist or the user is already in it. |
| GroupManager.Manager.LeaveGroup | gateway/src/GroupManager.cpp:100-109 | Both directions of the membership go. |
| GroupManager.Manager.DissolveGroup | gateway/src/GroupManager.cpp:115-137 | The member loop and the two deletions remove the group everywhere, for the creator only. |
| GroupManager.IndexAgreement | gateway/src/GroupManager.cpp:32-137 | After any sequence of operations u is in members(g) iff g is in groups(u), and a group with members has a room. |
| GroupManager.CreateAdds | gateway/src/GroupManager.cpp:32-59 | A creation makes the room and exactly one membership, the creator's. |
| GroupManager.JoinAdds | gateway/src/GroupManager.cpp:65-94 | A join works exactly for a named user not yet in an existing group, and adds exactly that membership. |
| GroupManager.LeaveRemoves | gateway/src/GroupManager.cpp:100-109 | A leave takes away exactly that membership. |
| GroupManager.DissolvedIff | gateway/src/GroupManager.cpp:115-121 | A group is dissolved exactly when its creator asks. |
| GroupManager.FreshIds | gateway/src/GroupManager.cpp:18-59 | A new id is above every id handed out before and named nothing at any earlier moment, whatever happened in between. |
| GroupManager.ReusedIff | gateway/src/GroupManager.cpp:18-40 | After any operations, a creation returns an id that was handed out before if and only if INCR fails now and failed in an earlier creation. |
| GroupManager.ReuseMixes | gateway/src/GroupManager.cpp:39-56 | A creation under the empty id replaces the room there was, and the old members become members of the new one. |
| GroupManager.DissolveForgets | gateway/src/GroupManager.cpp:115-137 | After a dissolve the group is in no user's set, and every other group is as before. |
| GroupManager.JoinThenLeave | gateway/src/GroupManager.cpp:65-109 | Leaving undoes joining. |
| GatewayRegistry.LoadIsAShare | gateway/src/GatewayRegistry.cpp:283-287 | The load is connections over maximum up to 1, and 1 exactly at or over the maximum; 0 without a maximum. |
| GatewayRegistry.Registry.RegisterGateway | gateway/src/GatewayRegistry.cpp:89-123 | Stores the node with a current heartbeat and makes it active; no other node changes. |
| GatewayRegistry.Registry.UnregisterGateway | gateway/src/GatewayRegistry.cpp:128-133 | The node is neither stored nor active. |
| GatewayRegistry.Registry.SendHeartbeat | gateway/src/GatewayRegistry.cpp:169-189 | Renews the stored node only; the active set is untouched. |
| GatewayRegistry.Registry.DiscoverGateways | gateway/src/GatewayRegistry.cpp:197-217 | Returns exactly the active nodes with a heartbeat within 30 s, each once, and evicts exactly the stale ones. |
| GatewayRegistry.Registry.DiscoverGatewaysByRegion | gateway/src/GatewayRegistry.cpp:222-231 | Exactly the discovered nodes of the region. |
| GatewayRegistry.Registry.MinLoad | gateway/src/GatewayRegistry.cpp:241-259 | A node of the list with no less loaded one in it. |
| GatewayRegistry.Registry.SelectBestGateway | gateway/src/GatewayRegistry.cpp:237-261 | A least loaded fresh node of the region; if there is none, of all fresh nodes; if none at all, the empty node. |
| GatewayRegistry.Undisturbed | gateway/src/GatewayRegistry.cpp:197-217 | Run command by command without interference, a discovery evicts and finds exactly what the whole method does. |
| GatewayRegistry.RegisteredNeverEvicted | gateway/src/GatewayRegistry.cpp:89-217 | Command by command, whatever discoveries others run at any time: a gateway that no discovery had in hand registers, keeps its stored heartbeat within 30 s and does not unregister; then it stays active, with no removal of it ever decided. |
| GatewayRegistry.RegisteredAlwaysDiscovered | gateway/src/GatewayRegistry.cpp:89-217 | Every discovery begun after that registration finds it. |
| GatewayRegistry.NeverEvicted | gateway/src/GatewayRegistry.cpp:169-217 | The same from any moment at which it is active and no discovery has decided to remove it. |
| GatewayRegistry.AlwaysDiscovered | gateway/src/GatewayRegistry.cpp:197-217 | A discovery begun at such a moment finds it if its heartbeat stays within 30 s until the end. |
| GatewayRegistry.StaysAbsent | gateway/src/GatewayRegistry.cpp:169-217 | A gateway out of the active set stays out, heartbeats or not, until its id is added again. |
| GatewayRegistry.StaysUnreported | gateway/src/GatewayRegistry.cpp:197-217 | Until then no discovery begun in the meantime reports it. |
| GatewayRegistry.SecureIff | gateway/src/GatewayRegistry.cpp:197-217 | A live active gateway can be taken out by a next command other than its own unregistration if and only if some discovery has already decided to remove it. |
| GatewayRegistry.LateRemoval | gateway/src/GatewayRegistry.cpp:207-212 | For every gateway id, a run from the empty registry in which the gateway registers again after being found silent and is then removed with its heartbeat up to date. |
| Ratchet.ForwardSecrecy | gateway/src/E2EECrypto.cpp:540-567 | One-way steps: from the chain key of position n exactly the message keys of positions n and later can be computed, none of an earlier one. |
| Ratchet.Session.EncryptMessage | gateway/src/E2EECrypto.cpp:330-366 | One step of the send chain, the sealed packet under its message key, the count and the nonce. |
| Ratchet.Session.DecryptMessage | gateway/src/E2EECrypto.cpp:374-418 | Too short: no change. Otherwise the receive chain moves in any case, and the count only on success. |
| Ratchet.KeysAreFresh | gateway/src/E2EECrypto.cpp:544-567 | No key comes twice along a chain, and no message key is ever a chain key. |
| Ratchet.WhereTheChainsStand | gateway/src/E2EECrypto.cpp:330-418 | After any mix of sends and receives the send chain stands at the number of sends and the receive chain at the number of long-enough attempts, failed ones included. |
| Ratchet.WhereTheCountersStand | gateway/src/E2EECrypto.cpp:357-413 | The counters are the numbers of messages sent and opened, modulo 2^64. |
| Ratchet.AttemptsFrom28 | gateway/src/E2EECrypto.cpp:378-382 | A ciphertext is an attempt exactly from 28 bytes on; shorter ones change nothing. |
| Ratchet.SentWires | gateway/src/E2EECrypto.cpp:330-366 | The j-th ciphertext is sealed under message key j, whatever was received in between. |
| Ratchet.Alignment | gateway/src/E2EECrypto.cpp:330-418 | From equal chain keys, the k-th attempt opens the j-th sent message, to its plaintext, if and only if j = k. |
| Ratchet.OpensExactly | gateway/src/E2EECrypto.cpp:374-418 | Whatever an unforging network does, attempt k opens if and only if it is the k-th sent ciphertext unaltered. |
| Ratchet.AllOpenIff | gateway/src/E2EECrypto.cpp:374-418 | Every attempt opens if and only if the attempts are the sent stream, in order and without a gap. |
| Ratchet.RecoversIff | gateway/src/E2EECrypto.cpp:389-410 | Where the stream goes on in order, some places off, an attempt opens if and only if it is zero places off. |
| Ratchet.AfterOneFault | gateway/src/E2EECrypto.cpp:389-410 | After the first n messages, a fault of any length, and the stream going on in order: shifted, exactly the n messages are ever opened; not shifted, exactly the faulty places are missing. |
| Ratchet.AlteredInPlace | gateway/src/E2EECrypto.cpp:389-410 | Of a stream with one ciphertext altered in its own place, every other message opens, to its plaintext. |
| PriorityQueue.OneCopyPerDevice | gateway/src/EpollServer.cpp:1390-1398 | A send to a user queues each message as often as its descriptor is in the device list, and nothing else. |
| PriorityQueue.Queue.Push | gateway/src/PriorityQueue.cpp:14-21 | One more message, as given. |
| PriorityQueue.Queue.Pop | gateway/src/PriorityQueue.cpp:25-34 | Takes out one message: urgent if any is, and bulk only if all are; an empty queue gives descriptor -1 and stays empty. |
| PriorityQueue.Queue.Clear | gateway/src/PriorityQueue.cpp:60-64 | The loop ends with an empty queue. |
| PriorityQueue.OrderOfClasses | gateway/include/PriorityQueue.h:29-32 | The order of the drain is: all urgent messages, then all normal ones, then all bulk ones. |
| PriorityQueue.Server.SendToUser | gateway/src/EpollServer.cpp:1390-1398 | Queues the copies for every device, and nothing for an unknown user. |
| PriorityQueue.Server.DrainQueue | gateway/src/EpollServer.cpp:743-748 | Terminates with an empty queue, having taken a permutation of it, urgent before normal before bulk; each connection still live got exactly its messages in that order. |
| PriorityQueue.Band | gateway/include/PriorityQueue.h:29-32 | In a drain the messages more urgent than a rank fill exactly the first places. |
| PriorityQueue.TiesDoNotMatter | gateway/include/PriorityQueue.h:29-32 | Two drains of the same messages carry the same priority in every place, however ties are broken. |
| PriorityQueue.NothingLostOrRepeated | gateway/src/EpollServer.cpp:743-748 | Over every run of pushes and drains, what went out and what waits is exactly what was pushed. |
| PriorityQueue.NextRoundTakesIt | gateway/src/EpollServer.cpp:743-748 | The first drain after a push takes the message, behind at most messages as urgent as itself. |

## Left out

- WsReads.DeliversExactly: asks for a payload limit below 126 * 65536. The default is 65536 and nothing in the gateway calls `setMaxPayloadSize`; with a larger limit a misread 16-bit length could swallow later frames instead of stopping the parser.
- WsReads.FirstFrameFits: bounds the first frame only. Bytes read ahead of the parser can pile up over earlier frames and let a longer one through later; WsReads.DeliversExactly covers that for any read sizes.
- WsContract.Receive: is about the repaired parser; what the code itself does is WsReads.DeliversExactly.
- RateLimiter.WindowBound: carries one microsecond of tokens more than the ideal bound, because the code does; RateLimiter.ExactBoundIff says exactly when it is not needed. `setRate` in the middle of a run is not modelled, and the counts are real numbers, not doubles.
- AckTracker.Lifecycle: is about ids tracked once. Tracking an id again (several devices of one user) overwrites its entry, so the last device wins.
- Presence.ExactIffFirstLogins: is about moments when a gateway is between operations; in the middle of a login or logout its tables lag Redis or the other way round.
- PriorityQueue.Server.DrainQueue: sends see only whether a connection is live; the buffering of a send is ConnectionIo. FIFO order within one priority is not promised by the code.
- TcpLines.ChunkIndependent: is about streams without the HTTP markers. The branches for them are in TcpLines.TcpConnection.TakePiece, with the outcome of the handshake as an input. A message handler that closes the connection it is called from is not part of this model.
- Mailbox.Redis.PushOfflineMessages: says what one pass does when no other gateway acts; the theorems about runs cover the rest. That a popped message reaches its user is not promised: `sendToUser` drops it if the user is not local.
- GroupManager.IndexAgreement: operations run as wholes. Two gateways interleaved command by command can leave the index asymmetric.
- Ratchet.Alignment: cryptography is symbolic; a seal opens under its own key and nonce only. Key exchange, key storage and rotation are not modelled, and the AEAD's own failure on messages of about 2^36 bytes is taken not to happen.
- ConnectionIo.RunConserves: the wakeups are ConnectionIo.AwakeIff. `epoll_ctl` may fail anywhere: in a send it closes the connection, in a write event it leaves writability watched. `sendToClient` of a close frame frames the already framed bytes once more on a WebSocket; the model sends what it is given.
- After a CLOSE frame `handleWsRead` goes on with a connection that `disconnectClient` has erased; the model stops at the close.
- The dead-letter mailboxes: dead letters go into the same pending set as other offline messages and are popped with them.
- The branch of `performLogin` for a second device: the login script never returns 0, so it cannot be reached.
- `getAllOnlineUsers`, `getUserGateway` and the other read-only Redis queries; loss of the Redis connection.
- The message handlers above the transport (JSON dispatch, friends, files, AI requests), timeouts of idle connections, metrics, logging, configuration, TLS, the handshake hash.
- Sockets, `epoll_wait`, hiredis, libsodium and JSON serialisation: their results are inputs of the model.
