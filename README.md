# WiFi Direct plugin: a verified model

This project models the Android side of the AirDrop Pro WiFi Direct plugin,
`WiFiDirectPlugin.kt`. The Kotlin object is modelled as a Dafny class. It keeps the session fields (`isConnected`, `isGroupOwner`, `connectedDevice`, `groupOwnerAddress`, both sockets). The manager and the channel are kept only as whether they exist, and the broadcast receiver as a count of registrations plus whether the last-created one is registered. Two fields are added: the events sent to the Flutter side and the platform requests made. `context`, the Activity binding and the `MethodChannel` are not kept. That class:

- answers Flutter method-channel calls (`initialize`, `startDiscovery`,
  `stopDiscovery`, `connect`, `disconnect`, `sendFile`, `isWifiDirectSupported`,
  `isWifiDirectEnabled`);
- reacts to WiFi P2P broadcasts (state, peers, connection, this device);
- moves one file per `sendFile` over a TCP socket on port 8988. The client
  sends and the group owner receives.

A transfer is a header followed by the file bytes:

- the header is the name as written by `DataOutputStream.writeUTF`, then the size as written by `writeLong`;
- the file bytes follow in chunks of up to 8192 bytes;
- each chunk gets one `onTransferProgress` report.

Everything the platform decides is a parameter of the method that needs it:

- how an asynchronous `WifiP2pManager` request ends;
- whether a socket binds or connects;
- what a stream delivers;
- whether a file exists or opens.

Each handler runs to completion and returns the reply it gives the Flutter side.

Modules, in dependency order:

- `Wire` (`wire.dfy`): byte-level framing. It defines:
  - modified UTF-8 over UTF-16 code units, with its 16-bit length prefix and 65535-byte limit;
  - the 8-byte big-endian two's complement long;
  - the transfer header.

  It proves these round trips: integers, longs, strings, and the header.
- `Streams` (`streams.dfy`): the `java.io` streams as classes.
  - A `ByteSource` holds the bytes a stream will deliver and a read position. Its
    `Read` may return fewer bytes than asked for, as a network stream may.
  - A `ByteSink` holds the bytes written to it.
- `Channel` (`channel.dfy`): the values exchanged with the Flutter side: replies, payloads and events.
- `Mappings` (`mappings.dfy`): the expression-only helpers:
  - `getFailureReason`;
  - the peer-list projection;
  - method-name routing.
- `Session` (`session.dfy`): the session fields as one value, and how the three occasions that change them do so:
  - the connection-changed callback;
  - `disconnect` with `closeConnections`;
  - the lazy opening of the server socket.
- `Transfer` (`transfer.dfy`): one transfer stated on values:
  - the request size of the receive loop, including Kotlin's `Long.toInt()` truncation;
  - the shape of the progress reports;
  - the complete outcome of a send (`SendSpec`) and of a receive (`ReceiveSpec`);
  - an end-to-end lemma showing that what a send writes, a receive reads back.
- `Plugin` (`plugin.dfy`): the class `WiFiDirectPlugin`. It holds the fields, the handlers and the
  two chunk loops. The loops work on an 8192-byte `array` and are proved against `SendSpec` and `ReceiveSpec`.

Behaviour of the code worth noting:

- **Short stream.** A stream that ends before the declared size is a successful receive, of fewer bytes. It is not an error.
- **No size check.** The sender reports the bytes it read from the file and never compares them with the declared size.
- **No one-transfer-at-a-time check.** Nothing stops a second transfer while one is running.
- **Lost group.** When the group is no longer formed, only `isConnected` is cleared. The role, the owner address and the server socket stay.
- **Files of 2 GiB or more.** Such a file is never received whole, because the receive loop truncates what remains to a 32-bit `Int`. Depending on the low 32 bits of the size, the receiver fails at once with RECEIVE_ERROR, hangs without an answer, or saves a truncated prefix and then hangs.
- **Empty transfer.** A receive with a declared size of 0 or less writes nothing and reports no progress at all.
- **`stopDiscovery` surfaces failures.** It answers `STOP_FAILED` when the platform rejects the request.
- **Failed `removeGroup`.** `disconnect` still answers success, but then `isConnected` stays true.
- **Peer list `isGroupOwner`.** It means "status is CONNECTED", not "is the group owner".

## Model

| member | source | states |
|---|---|---|
| Wire.BigEndianRoundTrip | android/app/src/main/kotlin/com/airdrop/pro/WiFiDirectPlugin.kt:331-332 | an unsigned value below 256^n written as n big-endian bytes reads back as itself |
| Wire.FromBigEndianRoundTrip | android/app/src/main/kotlin/com/airdrop/pro/WiFiDirectPlugin.kt:384-385 | every byte string is the n-byte big-endian form of the value it denotes |
| Wire.LongRoundTrip | android/app/src/main/kotlin/com/airdrop/pro/WiFiDirectPlugin.kt:332 | `readLong` on the 8 bytes `writeLong(x)` emits gives back x, negative values included, consuming exactly 8 bytes whatever follows |
| Wire.LongBytesOnto | android/app/src/main/kotlin/com/airdrop/pro/WiFiDirectPlugin.kt:385 | every 8-byte pattern reads as a long whose encoding is that same pattern, so `readLong` loses nothing |
| Wire.ReadLong | android/app/src/main/kotlin/com/airdrop/pro/WiFiDirectPlugin.kt:385 | `readLong` succeeds exactly when 8 bytes remain, and then consumes 8 |
| Wire.DecodeEncodedUnit | android/app/src/main/kotlin/com/airdrop/pro/WiFiDirectPlugin.kt:331 | `readUTF`'s decoding of the 1, 2 or 3 bytes `writeUTF` emits for a code unit gives back that unit and consumes exactly those bytes |
| Wire.ModifiedUtf8RoundTrip | android/app/src/main/kotlin/com/airdrop/pro/WiFiDirectPlugin.kt:331 | decoding the modified UTF-8 of any string, including NUL and surrogates, gives back the string |
| Wire.ModifiedUtf8Length | android/app/src/main/kotlin/com/airdrop/pro/WiFiDirectPlugin.kt:331 | the encoding takes one to three bytes per code unit, and exactly one per unit for ASCII without NUL |
| Wire.WriteUtfSucceeds | android/app/src/main/kotlin/com/airdrop/pro/WiFiDirectPlugin.kt:331 | `writeUTF` succeeds exactly when the encoding fits in 65535 bytes, then writes 2 + that many bytes; a name of at most 21845 units always fits |
| Wire.ReadUtf | android/app/src/main/kotlin/com/airdrop/pro/WiFiDirectPlugin.kt:384 | a successful `readUTF` consumes at least its 2-byte prefix and no more than is available |
| Wire.UtfRoundTrip | android/app/src/main/kotlin/com/airdrop/pro/WiFiDirectPlugin.kt:384 | `readUTF` reads back the string `writeUTF` wrote, consuming 2 + its encoded length, whatever follows |
| Wire.DecodeHeader | android/app/src/main/kotlin/com/airdrop/pro/WiFiDirectPlugin.kt:384-385 | a header that reads consumes at least 10 bytes and no more than are available |
| Wire.HeaderRoundTrip | android/app/src/main/kotlin/com/airdrop/pro/WiFiDirectPlugin.kt:384-385 | the receiver reads back the sender's name and size, in that order, consuming exactly 2 + the name's encoded length + 8 bytes, whatever follows |
| Streams.ByteSource.constructor | android/app/src/main/kotlin/com/airdrop/pro/WiFiDirectPlugin.kt:380-381 | a fresh stream is positioned at its first byte |
| Streams.ByteSource.Read | android/app/src/main/kotlin/com/airdrop/pro/WiFiDirectPlugin.kt:398 | `read(b, 0, len)`: IndexOutOfBounds for a negative or too large len, 0 for len 0, end of stream only when nothing remains, otherwise 1..len of the next bytes copied into the front of the buffer and the rest of the buffer untouched |
| Streams.ByteSource.ReadUtf | android/app/src/main/kotlin/com/airdrop/pro/WiFiDirectPlugin.kt:384 | reads what `Wire.ReadUtf` finds at the position and advances past it; keeping the position on failure is the model's choice and cannot be observed, since every caller abandons the stream after a failed read |
| Streams.ByteSource.ReadLong | android/app/src/main/kotlin/com/airdrop/pro/WiFiDirectPlugin.kt:385 | reads what `Wire.ReadLong` finds at the position and advances 8 bytes; keeping the position on failure is the model's choice and cannot be observed, since every caller abandons the stream after a failed read |
| Streams.ByteSink.constructor | android/app/src/main/kotlin/com/airdrop/pro/WiFiDirectPlugin.kt:327-328 | a fresh stream holds no bytes |
| Streams.ByteSink.Write | android/app/src/main/kotlin/com/airdrop/pro/WiFiDirectPlugin.kt:401 | `write(b, 0, len)` appends the first len bytes of the buffer |
| Streams.ByteSink.WriteUtf | android/app/src/main/kotlin/com/airdrop/pro/WiFiDirectPlugin.kt:331 | appends the `writeUTF` bytes when the string fits and reports whether it did; nothing is written otherwise |
| Streams.ByteSink.WriteLong | android/app/src/main/kotlin/com/airdrop/pro/WiFiDirectPlugin.kt:332 | appends the 8 `writeLong` bytes |
| Mappings.NatToDecimal | android/app/src/main/kotlin/com/airdrop/pro/WiFiDirectPlugin.kt:577 | the decimal text of a number is a non-empty string of digits |
| Mappings.DecimalRoundTrip | android/app/src/main/kotlin/com/airdrop/pro/WiFiDirectPlugin.kt:577 | the `$reason` text of any int, negative ones included, reads back as that int |
| Mappings.FailureReasonInjective | android/app/src/main/kotlin/com/airdrop/pro/WiFiDirectPlugin.kt:571-579 | codes 0..3 have fixed texts not starting like the unknown form; any other code is "Unknown error (code)"; no two codes share a text |
| Mappings.ProjectPeersFaithful | android/app/src/main/kotlin/com/airdrop/pro/WiFiDirectPlugin.kt:484-494 | the published list has one entry per platform peer, in order, with name, address and status unchanged, flagged as owner exactly when the status is CONNECTED |
| Mappings.DispatchInvertsMethodName | android/app/src/main/kotlin/com/airdrop/pro/WiFiDirectPlugin.kt:106-118 | each handler is reached by its own name and by no other, and a name matching no handler gets `notImplemented` |
| Session.GroupFormedRecordsInfo | android/app/src/main/kotlin/com/airdrop/pro/WiFiDirectPlugin.kt:504-527 | a formed group marks the session connected, copies role and owner address, keeps device and client socket, adds a server socket only for an owner without one whose bind succeeds, and publishes connected with the role and the host address |
| Session.GroupLostOnlyClearsConnected | android/app/src/main/kotlin/com/airdrop/pro/WiFiDirectPlugin.kt:528-531 | a group no longer formed clears only `isConnected` and publishes disconnected |
| Session.ServerSocketCreatedOnce | android/app/src/main/kotlin/com/airdrop/pro/WiFiDirectPlugin.kt:518-527 | an existing server socket is never replaced; a new one appears only for a formed owner group with a successful bind, and a receive lacks one only when it had none and the bind failed |
| Session.DisconnectClosesSockets | android/app/src/main/kotlin/com/airdrop/pro/WiFiDirectPlugin.kt:250-274 | after disconnect both sockets are gone and role and address are kept; disconnected state and a forgotten device follow only from a successful `removeGroup` |
| Session.DisconnectIdempotent | android/app/src/main/kotlin/com/airdrop/pro/WiFiDirectPlugin.kt:250-274 | disconnecting twice with the same platform outcome is the same as disconnecting once |
| Session.TransitionsKeepWellFormed | android/app/src/main/kotlin/com/airdrop/pro/WiFiDirectPlugin.kt:362-365 | no connection change, disconnect or server-socket opening leaves a client socket behind, so between handler calls none is held |
| Session.OwnerSocketOutlivesRole | android/app/src/main/kotlin/com/airdrop/pro/WiFiDirectPlugin.kt:518-531 | after an episode as group owner, a lost group and a new group formed as client, the session is a connected client of the new owner that still holds the old listening socket; only a disconnect closes it |
| Transfer.RequestLengthInRange | android/app/src/main/kotlin/com/airdrop/pro/WiFiDirectPlugin.kt:398 | while what remains is below 2^31, each read asks for the smaller of 8192 and what remains, so between 1 and 8192 bytes |
| Transfer.RequestLengthAtMostRemaining | android/app/src/main/kotlin/com/airdrop/pro/WiFiDirectPlugin.kt:398 | for any positive remainder, even after truncation, a read never asks for more than remains or than the buffer holds |
| Transfer.RequestLengthTruncates | android/app/src/main/kotlin/com/airdrop/pro/WiFiDirectPlugin.kt:398 | `toInt()` truncation: 2^32 remaining asks for 0 bytes, 2^31 for a negative count, 2^32 + 5 for 5 |
| Transfer.ProgressTraceExtend | android/app/src/main/kotlin/com/airdrop/pro/WiFiDirectPlugin.kt:402-406 | a chunk of 1 to 8192 bytes adds exactly one report carrying the new running count and the unchanged total |
| Transfer.ProgressTraceFacts | android/app/src/main/kotlin/com/airdrop/pro/WiFiDirectPlugin.kt:426-432 | reports carry strictly increasing counts and the same total; the last carries the final count; a transfer of no bytes reports nothing; the count is at most 8192 per report |
| Transfer.WindowCountsDown | android/app/src/main/kotlin/com/airdrop/pro/WiFiDirectPlugin.kt:398 | while the loop stays within the first truncated window, the truncated remainder is exactly that window less what was received, so a zero request can only come at its end |
| Transfer.WindowAtMostDeclared | android/app/src/main/kotlin/com/airdrop/pro/WiFiDirectPlugin.kt:398 | the truncated window never exceeds a positive declared size, and equals it below 2^31 |
| Transfer.ReceiveAtOrAboveTwo31 | android/app/src/main/kotlin/com/airdrop/pro/WiFiDirectPlugin.kt:397-423 | with a declared size of 2^31 or more: a negative truncated request gives RECEIVE_ERROR with an empty file, a zero one never answers with an empty file, and a positive window w saves min(w, available) bytes, answering success only when the stream ended before w and never answering otherwise |
| Transfer.ReceiveBelowTwo31Succeeds | android/app/src/main/kotlin/com/airdrop/pro/WiFiDirectPlugin.kt:397-418 | with a declared size below 2^31 the receive succeeds with min(declared, available) bytes, or 0 for a size of 0 or less, so an early end of stream is a success |
| Transfer.SendThenReceive | android/app/src/main/kotlin/com/airdrop/pro/WiFiDirectPlugin.kt:317-418 | a successful send, received by an owner whose socket and file open, saves under the sent name the first min(size, file length) bytes of the file, and all of it with success for an honest size, for a declared size from 0 to 2^31 - 1; larger sizes are covered by `Transfer.ReceiveAtOrAboveTwo31` and `Transfer.HonestLargeSendNotReceived` |
| Transfer.HonestLargeSendNotReceived | android/app/src/main/kotlin/com/airdrop/pro/WiFiDirectPlugin.kt:397-423 | a file of 2^31 bytes or more sent with its honest size is saved under the sent name only as a proper prefix, and the receiver never answers success |
| Plugin.WiFiDirectPlugin.constructor | android/app/src/main/kotlin/com/airdrop/pro/WiFiDirectPlugin.kt:124-135 | attachment starts unconnected without sockets, with a channel only where the manager exists and its `initialize` succeeded |
| Plugin.WiFiDirectPlugin.Initialize | android/app/src/main/kotlin/com/airdrop/pro/WiFiDirectPlugin.kt:137-144 | with manager and channel, one more receiver is registered and the answer is true; otherwise INIT_ERROR and nothing changes |
| Plugin.WiFiDirectPlugin.StartDiscovery | android/app/src/main/kotlin/com/airdrop/pro/WiFiDirectPlugin.kt:150-179 | permission check first, then initialisation, both without a platform request; then discovery is requested and its outcome answered as true, DISCOVERY_FAILED with the reason text, or PERMISSION_ERROR |
| Plugin.WiFiDirectPlugin.StopDiscovery | android/app/src/main/kotlin/com/airdrop/pro/WiFiDirectPlugin.kt:181-205 | NOT_INITIALIZED without a request; otherwise true, STOP_FAILED without the reason, or PERMISSION_ERROR |
| Plugin.WiFiDirectPlugin.Connect | android/app/src/main/kotlin/com/airdrop/pro/WiFiDirectPlugin.kt:211-248 | a missing address is INVALID_ARGUMENT before the initialisation check; the request uses push-button setup and group-owner intent 15; the session fields do not change |
| Plugin.WiFiDirectPlugin.CloseConnections | android/app/src/main/kotlin/com/airdrop/pro/WiFiDirectPlugin.kt:581-593 | the session afterwards is `Session.ConnectionsClosed` of the one before |
| Plugin.WiFiDirectPlugin.Disconnect | android/app/src/main/kotlin/com/airdrop/pro/WiFiDirectPlugin.kt:250-274 | NOT_INITIALIZED changes nothing; otherwise the session becomes `Session.Disconnected` for the `removeGroup` outcome, and the answer is true either way |
| Plugin.WiFiDirectPlugin.SendFile | android/app/src/main/kotlin/com/airdrop/pro/WiFiDirectPlugin.kt:280-315 | argument check, then connection check, then file existence, each with no socket and no report; then an owner receives per `ReceiveSpec` and a client sends per `SendSpec`, holding no client socket afterwards |
| Plugin.WiFiDirectPlugin.SendFileToGroupOwner | android/app/src/main/kotlin/com/airdrop/pro/WiFiDirectPlugin.kt:317-366 | meets `Transfer.SendSpec`: NO_ADDRESS without a socket; SEND_ERROR when connecting or `writeUTF` fails; SEND_ERROR with only the header on the wire and no report when the file cannot be opened; otherwise the wire holds the header then the whole file, one report per chunk, and the answer is the count read; the client socket is cleared on every path |
| Plugin.WiFiDirectPlugin.WriteHeader | android/app/src/main/kotlin/com/airdrop/pro/WiFiDirectPlugin.kt:331-332 | appends exactly the encoded header, or nothing where the name does not fit |
| Plugin.WiFiDirectPlugin.SendChunks | android/app/src/main/kotlin/com/airdrop/pro/WiFiDirectPlugin.kt:335-347 | appends everything the file holds to the socket stream, the count equals the file's length, and the reports form a progress trace against the declared size |
| Plugin.WiFiDirectPlugin.ReceiveFile | android/app/src/main/kotlin/com/airdrop/pro/WiFiDirectPlugin.kt:368-424 | meets `Transfer.ReceiveSpec`: RECEIVE_ERROR with no file and no report when the bind, the header or the file open fails; otherwise a file named by the received name holding a prefix of the bytes after the header; the server socket becomes `Session.ServerForReceive` |
| Plugin.WiFiDirectPlugin.ReadHeader | android/app/src/main/kotlin/com/airdrop/pro/WiFiDirectPlugin.kt:384-385 | reads the header `Wire.DecodeHeader` finds at the start of the stream and stops right after it |
| Plugin.WiFiDirectPlugin.ReceiveChunks | android/app/src/main/kotlin/com/airdrop/pro/WiFiDirectPlugin.kt:393-418 | meets `Transfer.ReceivedBody`: the file holds a prefix of the body of at most the declared size and at most the first truncated window, one report per chunk, ending in success at the size or at end of stream, RECEIVE_ERROR for a negative truncated request, or never for a zero one |
| Plugin.WiFiDirectPlugin.RequestPeerList | android/app/src/main/kotlin/com/airdrop/pro/WiFiDirectPlugin.kt:482-499 | with a manager, peers are requested and the projected list published; without one nothing happens |
| Plugin.WiFiDirectPlugin.RequestConnectionInfo | android/app/src/main/kotlin/com/airdrop/pro/WiFiDirectPlugin.kt:501-536 | with a manager, the session becomes `Session.ConnectionInfoChanged` of the report and exactly one connection event is published; without one nothing happens |
| Plugin.WiFiDirectPlugin.HandleIntent | android/app/src/main/kotlin/com/airdrop/pro/WiFiDirectPlugin.kt:455-480 | a state broadcast publishes whether its state extra equals WIFI_P2P_STATE_ENABLED, so a missing extra counts as disabled; peers and connection broadcasts act as the two requests above; this-device and other broadcasts change nothing |
| Plugin.WiFiDirectPlugin.OnMethodCall | android/app/src/main/kotlin/com/airdrop/pro/WiFiDirectPlugin.kt:106-118 | an unknown name is `notImplemented` and changes nothing; only `sendFile` moves bytes; only `disconnect` and `sendFile` can change the session |
| Plugin.WiFiDirectPlugin.OnDetachedFromEngine | android/app/src/main/kotlin/com/airdrop/pro/WiFiDirectPlugin.kt:595-605 | the last-created receiver is unregistered if it is registered; sockets are closed; manager and channel are dropped |

## Left out

These are not modelled:

- **Threads.** `sendFile`'s worker thread and the server-socket thread that the connection callback starts run synchronously. So races between them are not covered: a transfer against a concurrent `disconnect` or connection change, or two transfers at once.
- **The Flutter engine, `MethodChannel` and `Context`.** These are represented only by the replies and events they carry. Logging is left out.
- **The Activity binding callbacks** (`onAttachedToActivity` and the like) only store or clear a reference that the core never reads.
- **Argument values.** `MethodCall.argument` type conversions are not modelled: an argument is present with the right type or absent. For example a `fileSize` that arrives as an `Integer` may fail the cast to `Long`; that path is not modelled.
- **`checkPermissions`** is a boolean parameter. The permission list and the SDK-version branch are not modelled.
- **Percentage.** The `progress` percentage in `onTransferProgress` is computed in floating point, including the division by a zero size, and is left out. The reports carry `bytesTransferred` and `totalBytes`.
- **`close()` exceptions.** `flush` and `close` are not modelled, and neither are exceptions thrown by a socket or file `close()`.
- **`SOCKET_ERROR`.** `receiveFile` answers this when `accept()` finds no server socket, which only a concurrent `closeConnections` can cause. It is not reachable in the sequential model.
- **`TRANSFER_ERROR`.** `sendFile` answers this for an exception outside the two transfer functions, for example a `SecurityException` from `File.exists()`. It is not reachable in the sequential model.
- **Broadcasts to several receivers.** Each `initialize` registers another receiver, and every broadcast reaches each of them. `HandleIntent` models one delivery, and only the count of registered receivers is kept.
- **`SecurityException` from `requestPeers` and `requestConnectionInfo`** is swallowed by the plugin. It is not modelled; the platform is assumed to deliver the report.
- **A file that changes while it is read.** The local file is missing, unreadable, or readable with fixed bytes. A file that vanishes or cannot be opened after the existence check is the unreadable case, which answers SEND_ERROR after the header was written. A file whose contents change while the loop reads it is not modelled.
- **I/O errors in the middle of a transfer.** A socket write failing while the header or a chunk is sent, a connection reset during `read`, and a failing `FileOutputStream.write` each end in SEND_ERROR or RECEIVE_ERROR after part of the data has moved. The model's streams do not fail once opened, so these paths are not modelled.
- **The details argument of `result.error`.** The three PERMISSION_ERROR replies pass the exception's message as a third argument; `Reply.Error` keeps only the code and the message.
- Plugin.WiFiDirectPlugin.SendFileToGroupOwner: the SEND_ERROR message is modelled as its fixed prefix "Failed to send file: ". The exception's own message that follows it is not modelled.
- Plugin.WiFiDirectPlugin.ReceiveFile: the RECEIVE_ERROR message is modelled as its fixed prefix "Failed to receive file: ". The exception's own message is not modelled.
- Plugin.WiFiDirectPlugin.ReceiveChunks: when the truncated request is 0 (for example 2^32 bytes remain), the source loops forever with `read` returning 0. Each of those turns still sends an identical `onTransferProgress` report, for example (0, 0, 2^32), without end. The model answers `Pending`, meaning no reply is ever given, and stops without recording that flood. So `Transfer.ProgressTraceFacts` describes only receives that finish.
- Plugin.WiFiDirectPlugin.SendChunks: `totalSent` is a 64-bit `Long`; its overflow past 2^63 bytes is not modelled.
- Plugin.WiFiDirectPlugin.OnMethodCall: states the routing and which calls may change the session or move bytes, but does not repeat each handler's reply; those replies are the contracts of the handler methods it calls, and `Mappings.DispatchInvertsMethodName` pins down which handler a name reaches.
- Streams.ByteSource.Read: the contract admits any short read of 1..len bytes, as a socket may deliver, so the loop proofs hold for every such stream. The method body itself always delivers as many as it can.
- **`hasSystemFeature`** is a parameter of `IsWifiDirectSupported`; the package manager is not modelled.
- Plugin.WiFiDirectPlugin.IsWifiDirectSupported: a one-expression handler that answers the feature flag. It has no contract of its own beyond that answer and no row in the table.
- Plugin.WiFiDirectPlugin.IsWifiDirectEnabled: a one-expression handler that answers whether the manager exists. It has no contract of its own beyond that answer and no row in the table.
- **`MainActivity.kt` and the Dart side of the plugin** are not part of this model.
