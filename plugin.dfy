/**
 * The plugin object itself: its fields, the method-channel handlers, the
 * broadcast handling and the two transfer loops. The platform's answers (the
 * outcome of an asynchronous manager call, whether a socket connects, what a
 * stream delivers) are parameters; each handler runs to completion and returns
 * the reply it gives the Flutter side.
 */
module Plugin {
  import opened Wire
  import opened Channel
  import opened Mappings
  import opened Session
  import opened Transfer
  import opened Streams

  /** How an asynchronous `WifiP2pManager` request ends for its `ActionListener`. */
  datatype ActionOutcome =
    | Accepted                // onSuccess
    | Rejected(reason: int32) // onFailure(reason)
    | SecurityDenied          // the request throws SecurityException

  /** `WpsInfo.PBC`, the only setup the plugin uses. */
  datatype WpsSetup = PushButton

  /** The `WifiP2pConfig` that `connect` builds. */
  datatype P2pConfig = P2pConfig(deviceAddress: string, wps: WpsSetup, groupOwnerIntent: int)

  /** The highest group-owner intent, which the plugin always asks for. */
  const MAX_GROUP_OWNER_INTENT: int := 15

  /** The requests the plugin makes of the platform, in order. */
  datatype PlatformCall =
    | RegisterReceiver
    | UnregisterReceiver
    | DiscoverPeers
    | StopPeerDiscovery
    | ConnectPeer(config: P2pConfig)
    | RemoveGroup
    | RequestPeers
    | RequestConnectionInfo

  /** A broadcast the registered receiver gets, with the data its handling fetches. */
  datatype Intent =
    | StateChanged(wifiState: int32)                              // EXTRA_WIFI_STATE, -1 when absent
    | PeersChanged(peers: seq<PeerDevice>)                        // the list requestPeers delivers
    | ConnectionChanged(info: ConnectionInfo, serverOpened: bool) // what requestConnectionInfo delivers
    | ThisDeviceChanged
    | OtherAction

  /** The arguments of a method call; None where the argument is missing. */
  datatype Arguments = Arguments(
    deviceAddress: Option<string>,
    filePath: Option<string>,
    fileName: Option<JString>,
    fileSize: Option<int64>)

  datatype MethodCall = MethodCall(methodName: string, arguments: Arguments)

  /** What the platform supplies to a `sendFile`. */
  datatype TransferPlatform = TransferPlatform(
    localFile: LocalFile,         // the file at filePath
    connectOk: bool,              // Socket(groupOwnerAddress, 8988) connects
    receive: ReceivePlatform)

  /** Everything the platform answers during one method call. */
  datatype Platform = Platform(
    permissionsGranted: bool,
    discoverOutcome: ActionOutcome,
    stopOutcome: ActionOutcome,
    connectOutcome: ActionOutcome,
    removeGroupOk: bool,
    wifiDirectFeature: bool,      // hasSystemFeature(FEATURE_WIFI_DIRECT)
    transfer: TransferPlatform)

  /** The bytes a `sendFile` put on the socket and the file it saved. */
  datatype TransferIo = TransferIo(sent: seq<byte>, saved: Option<SavedFile>)

  const NO_TRANSFER: TransferIo := TransferIo([], None)

  const NOT_INITIALIZED_MESSAGE: string := "WiFi Direct not initialized"

  class WiFiDirectPlugin {
    // The platform service handles, present or null.
    var hasManager: bool
    var hasChannel: bool
    // How many broadcast receivers are registered, and whether the one the
    // plugin last created (the only one it keeps a reference to) is among them.
    var registeredReceivers: nat
    var latestRegistered: bool
    // Connection state.
    var isConnected: bool
    var isGroupOwner: bool
    var connectedDevice: Option<PeerDevice>
    var groupOwnerAddress: Option<InetAddress>
    // File transfer sockets.
    var serverSocket: Option<ServerHandle>
    var clientSocket: Option<ClientHandle>
    // What the plugin pushed to the Flutter side and asked of the platform.
    var events: seq<Event>
    var calls: seq<PlatformCall>

    /** The session fields as one value. */
    function State(): Session.State
      reads this
    {
      Session.State(isConnected, isGroupOwner, connectedDevice, groupOwnerAddress, serverSocket, clientSocket)
    }

    ghost predicate Valid()
      reads this
    {
      && WellFormed(State())
      && (hasChannel ==> hasManager)
      && (latestRegistered ==> registeredReceivers > 0)
    }

    /** Both the manager and its channel exist. */
    predicate Initialized()
      reads this
    {
      hasManager && hasChannel
    }

    /**
     * `onAttachedToEngine` with `initializeWifiDirect`: the manager is whatever the
     * system service gives, and a channel exists only where the manager does and
     * its `initialize` succeeds.
     */
    constructor (managerAvailable: bool, channelCreated: bool)
      ensures Valid()
      ensures State() == Initial
      ensures hasManager == managerAvailable && hasChannel == (managerAvailable && channelCreated)
      ensures registeredReceivers == 0 && !latestRegistered
      ensures events == [] && calls == []
    {
      hasManager := managerAvailable;
      hasChannel := managerAvailable && channelCreated;
      registeredReceivers := 0;
      latestRegistered := false;
      isConnected := false;
      isGroupOwner := false;
      connectedDevice := None;
      groupOwnerAddress := None;
      serverSocket := None;
      clientSocket := None;
      events := [];
      calls := [];
    }

    //--------------------------------------------------
    // Method-channel handlers
    //--------------------------------------------------

    /** `initialize`: registers one more broadcast receiver each time it succeeds. */
    method Initialize() returns (r: Reply)
      requires Valid()
      modifies this`registeredReceivers, this`latestRegistered, this`calls
      ensures Valid()
      ensures old(Initialized()) ==>
        && r == Success(Flag(true))
        && registeredReceivers == old(registeredReceivers) + 1 && latestRegistered
        && calls == old(calls) + [RegisterReceiver]
      ensures !old(Initialized()) ==>
        && r == Error("INIT_ERROR", "Failed to initialize WiFi Direct")
        && registeredReceivers == old(registeredReceivers) && latestRegistered == old(latestRegistered)
        && calls == old(calls)
    {
      if Initialized() {
        registeredReceivers := registeredReceivers + 1;
        latestRegistered := true;
        calls := calls + [RegisterReceiver];
        r := Success(Flag(true));
      } else {
        r := Error("INIT_ERROR", "Failed to initialize WiFi Direct");
      }
    }

    /** `startDiscovery`: the permission check comes first, then the initialisation check. */
    method StartDiscovery(permissionsGranted: bool, outcome: ActionOutcome) returns (r: Reply)
      requires Valid()
      modifies this`calls
      ensures Valid()
      ensures !permissionsGranted ==>
        r == Error("PERMISSION_ERROR", "Required permissions not granted") && calls == old(calls)
      ensures permissionsGranted && !Initialized() ==>
        r == Error("NOT_INITIALIZED", NOT_INITIALIZED_MESSAGE) && calls == old(calls)
      ensures permissionsGranted && Initialized() ==>
        && calls == old(calls) + [DiscoverPeers]
        && r == match outcome
             case Accepted => Success(Flag(true))
             case Rejected(reason) => Error("DISCOVERY_FAILED", "Failed to start discovery: " + FailureReason(reason))
             case SecurityDenied => Error("PERMISSION_ERROR", "Missing permissions for discovery")
    {
      if !permissionsGranted {
        return Error("PERMISSION_ERROR", "Required permissions not granted");
      }
      if !Initialized() {
        return Error("NOT_INITIALIZED", NOT_INITIALIZED_MESSAGE);
      }
      calls := calls + [DiscoverPeers];
      match outcome
      case Accepted => r := Success(Flag(true));
      case Rejected(reason) => r := Error("DISCOVERY_FAILED", "Failed to start discovery: " + FailureReason(reason));
      case SecurityDenied => r := Error("PERMISSION_ERROR", "Missing permissions for discovery");
    }

    /** `stopDiscovery`: a rejection is reported without its reason. */
    method StopDiscovery(outcome: ActionOutcome) returns (r: Reply)
      requires Valid()
      modifies this`calls
      ensures Valid()
      ensures !Initialized() ==> r == Error("NOT_INITIALIZED", NOT_INITIALIZED_MESSAGE) && calls == old(calls)
      ensures Initialized() ==>
        && calls == old(calls) + [StopPeerDiscovery]
        && r == match outcome
             case Accepted => Success(Flag(true))
             case Rejected(_) => Error("STOP_FAILED", "Failed to stop discovery")
             case SecurityDenied => Error("PERMISSION_ERROR", "Missing permissions")
    {
      if !Initialized() {
        return Error("NOT_INITIALIZED", NOT_INITIALIZED_MESSAGE);
      }
      calls := calls + [StopPeerDiscovery];
      match outcome
      case Accepted => r := Success(Flag(true));
      case Rejected(_) => r := Error("STOP_FAILED", "Failed to stop discovery");
      case SecurityDenied => r := Error("PERMISSION_ERROR", "Missing permissions");
    }

    /**
     * `connect`: the argument check comes first, then the initialisation check;
     * the request asks for push-button setup and the highest owner intent. The
     * session fields change only later, through the connection-changed broadcast.
     */
    method Connect(deviceAddress: Option<string>, outcome: ActionOutcome) returns (r: Reply)
      requires Valid()
      modifies this`calls
      ensures Valid()
      ensures deviceAddress.None? ==>
        r == Error("INVALID_ARGUMENT", "Device address is required") && calls == old(calls)
      ensures deviceAddress.Some? && !Initialized() ==>
        r == Error("NOT_INITIALIZED", NOT_INITIALIZED_MESSAGE) && calls == old(calls)
      ensures deviceAddress.Some? && Initialized() ==>
        && calls == old(calls) + [ConnectPeer(P2pConfig(deviceAddress.value, PushButton, MAX_GROUP_OWNER_INTENT))]
        && r == match outcome
             case Accepted => Success(Flag(true))
             case Rejected(reason) => Error("CONNECTION_FAILED", "Failed to connect: " + FailureReason(reason))
             case SecurityDenied => Error("PERMISSION_ERROR", "Missing permissions for connection")
    {
      if deviceAddress.None? {
        return Error("INVALID_ARGUMENT", "Device address is required");
      }
      if !Initialized() {
        return Error("NOT_INITIALIZED", NOT_INITIALIZED_MESSAGE);
      }
      calls := calls + [ConnectPeer(P2pConfig(deviceAddress.value, PushButton, MAX_GROUP_OWNER_INTENT))];
      match outcome
      case Accepted => r := Success(Flag(true));
      case Rejected(reason) => r := Error("CONNECTION_FAILED", "Failed to connect: " + FailureReason(reason));
      case SecurityDenied => r := Error("PERMISSION_ERROR", "Missing permissions for connection");
    }

    /** `closeConnections`: both sockets are closed and forgotten. */
    method CloseConnections()
      requires Valid()
      modifies this`serverSocket, this`clientSocket
      ensures Valid()
      ensures State() == ConnectionsClosed(old(State()))
    {
      clientSocket := None;
      serverSocket := None;
    }

    /**
     * `disconnect`: once initialised it closes the sockets, asks for the group to
     * be removed, and answers success whatever the platform says.
     */
    method Disconnect(removeGroupOk: bool) returns (r: Reply)
      requires Valid()
      modifies this`isConnected, this`connectedDevice, this`serverSocket, this`clientSocket, this`calls
      ensures Valid()
      ensures !Initialized() ==>
        r == Error("NOT_INITIALIZED", NOT_INITIALIZED_MESSAGE) && State() == old(State()) && calls == old(calls)
      ensures Initialized() ==>
        && r == Success(Flag(true))
        && State() == Disconnected(old(State()), removeGroupOk)
        && calls == old(calls) + [RemoveGroup]
    {
      if !Initialized() {
        return Error("NOT_INITIALIZED", NOT_INITIALIZED_MESSAGE);
      }
      CloseConnections();
      calls := calls + [RemoveGroup];
      if removeGroupOk {
        isConnected := false;
        connectedDevice := None;
      }
      r := Success(Flag(true));
    }

    /** `isWifiDirectSupported`: the package manager's feature flag. */
    method IsWifiDirectSupported(featurePresent: bool) returns (r: Reply)
      ensures r == Success(Flag(featurePresent))
    {
      r := Success(Flag(featurePresent));
    }

    /** `isWifiDirectEnabled`: only whether the manager exists. */
    method IsWifiDirectEnabled() returns (r: Reply)
      ensures r == Success(Flag(hasManager))
    {
      r := Success(Flag(hasManager));
    }

    //--------------------------------------------------
    // File transfer
    //--------------------------------------------------

    /**
     * `sendFile`: after the argument and connection checks and the existence of
     * the local file, the group owner receives and a client sends. The name and
     * size passed in matter only to the sender: the receiver uses those it reads
     * from the wire.
     */
    method SendFile(args: Arguments, env: TransferPlatform) returns (r: Reply, io: TransferIo)
      requires Valid()
      modifies this`serverSocket, this`clientSocket, this`events
      ensures Valid()
      ensures old(events) <= events
      ensures args.filePath.None? || args.fileName.None? || args.fileSize.None? ==>
        && r == Error("INVALID_ARGUMENT", "File path, name, and size are required")
        && io == NO_TRANSFER && State() == old(State()) && events == old(events)
      ensures args.filePath.Some? && args.fileName.Some? && args.fileSize.Some? && !isConnected ==>
        && r == Error("NOT_CONNECTED", "Not connected to any device")
        && io == NO_TRANSFER && State() == old(State()) && events == old(events)
      ensures args.filePath.Some? && args.fileName.Some? && args.fileSize.Some? && isConnected && env.localFile.Missing? ==>
        && r == Error("FILE_NOT_FOUND", "File not found: " + args.filePath.value)
        && io == NO_TRANSFER && State() == old(State()) && events == old(events)
      ensures args.filePath.Some? && args.fileName.Some? && args.fileSize.Some? && isConnected && !env.localFile.Missing? ==>
        if isGroupOwner then
          && io.sent == []
          && clientSocket == old(clientSocket)
          && serverSocket == ServerForReceive(old(State()), env.receive.bindOk)
          && ReceiveSpec(env.receive, old(serverSocket), r, io.saved, events[|old(events)|..])
        else
          && io.saved.None?
          && serverSocket == old(serverSocket)
          && clientSocket.None?
          && SendSpec(groupOwnerAddress, env.localFile, args.fileName.value, args.fileSize.value,
                      env.connectOk, r, io.sent, events[|old(events)|..])
    {
      if args.filePath.None? || args.fileName.None? || args.fileSize.None? {
        return Error("INVALID_ARGUMENT", "File path, name, and size are required"), NO_TRANSFER;
      }
      if !isConnected {
        return Error("NOT_CONNECTED", "Not connected to any device"), NO_TRANSFER;
      }
      if env.localFile.Missing? {
        return Error("FILE_NOT_FOUND", "File not found: " + args.filePath.value), NO_TRANSFER;
      }
      if isGroupOwner {
        var saved;
        r, saved := ReceiveFile(args.fileName.value, args.fileSize.value, env.receive);
        io := TransferIo([], saved);
      } else {
        var wire;
        r, wire := SendFileToGroupOwner(env.localFile, args.fileName.value, args.fileSize.value, env.connectOk);
        io := TransferIo(wire, None);
      }
    }

    /**
     * `sendFileToGroupOwner`: the header, then the file in chunks of up to 8192
     * bytes with one progress report per chunk; the reply carries the count of
     * bytes read from the file, which is never compared with the declared size.
     * The client socket is forgotten on every path that opened one.
     */
    method SendFileToGroupOwner(file: LocalFile, fileName: JString, fileSize: int64, connectOk: bool)
      returns (r: Reply, wire: seq<byte>)
      requires Valid()
      modifies this`clientSocket, this`events
      ensures Valid()
      ensures clientSocket.None?
      ensures old(events) <= events
      ensures SendSpec(groupOwnerAddress, file, fileName, fileSize, connectOk, r, wire, events[|old(events)|..])
    {
      if groupOwnerAddress.None? {
        return Error("NO_ADDRESS", NO_ADDRESS_MESSAGE), [];
      }
      if !connectOk {
        clientSocket := None;
        return Error("SEND_ERROR", SEND_ERROR_MESSAGE), [];
      }
      clientSocket := Some(ClientHandle(groupOwnerAddress.value, FILE_TRANSFER_PORT));
      var dos := new ByteSink();
      var ok := WriteHeader(dos, Header(fileName, fileSize));
      if !ok {
        clientSocket := None;
        return Error("SEND_ERROR", SEND_ERROR_MESSAGE), [];
      }
      if !file.Readable? {
        wire := dos.data;
        clientSocket := None;
        return Error("SEND_ERROR", SEND_ERROR_MESSAGE), wire;
      }
      var fis := new ByteSource(file.bytes);
      var totalSent;
      ghost var reports;
      totalSent, reports := SendChunks(fis, dos, fileSize);
      wire := dos.data;
      clientSocket := None;
      r := Success(Sent(totalSent));
    }

    /** The `writeUTF` and `writeLong` that start `sendFileToGroupOwner`; false where `writeUTF` throws. */
    method WriteHeader(dos: ByteSink, h: Header) returns (ok: bool)
      modifies dos
      ensures ok == EncodeHeader(h).Some?
      ensures dos.data == old(dos.data) + (if ok then EncodeHeader(h).value else [])
    {
      ok := dos.WriteUtf(h.fileName);
      if ok {
        dos.WriteLong(h.fileSize);
      }
    }

    /** The data loop of `sendFileToGroupOwner`: everything `fis` holds is appended to `dos`. */
    method SendChunks(fis: ByteSource, dos: ByteSink, declared: int64) returns (totalSent: int, ghost reports: seq<Event>)
      requires fis.Valid() && fis.pos == 0
      modifies fis, dos, this`events
      ensures totalSent == |fis.data|
      ensures dos.data == old(dos.data) + fis.data
      ensures events == old(events) + reports
      ensures ProgressTrace(reports, totalSent, declared)
    {
      var buffer := new byte[BUFFER_SIZE];
      totalSent := 0;
      reports := [];
      while true
        invariant fis.Valid() && totalSent == fis.pos
        invariant dos.data == old(dos.data) + fis.data[..totalSent]
        invariant events == old(events) + reports
        invariant ProgressTrace(reports, totalSent, declared)
        decreases |fis.data| - fis.pos
      {
        var got := fis.Read(buffer, buffer.Length);
        if got.EndOfStream? {
          break;
        }
        var n := got.count;
        assert fis.data[..totalSent + n] == fis.data[..totalSent] + buffer[..n];
        dos.Write(buffer, n);
        ProgressTraceExtend(reports, totalSent, declared, n);
        totalSent := totalSent + n;
        reports := reports + [TransferProgress(totalSent, declared)];
        events := events + [TransferProgress(totalSent, declared)];
      }
      assert fis.data[..totalSent] == fis.data;
    }

    /**
     * `receiveFile`: opens the server socket if there is none, reads the header,
     * creates the file under the received name and copies the stream into it
     * until the received size is reached or the stream ends.
     */
    method ReceiveFile(fileName: JString, fileSize: int64, env: ReceivePlatform) returns (r: Reply, saved: Option<SavedFile>)
      requires Valid()
      modifies this`serverSocket, this`events
      ensures Valid()
      ensures serverSocket == ServerForReceive(old(State()), env.bindOk)
      ensures old(events) <= events
      ensures ReceiveSpec(env, old(serverSocket), r, saved, events[|old(events)|..])
    {
      if serverSocket.None? {
        if !env.bindOk {
          return Error("RECEIVE_ERROR", RECEIVE_ERROR_MESSAGE), None;
        }
        serverSocket := Some(ServerHandle(FILE_TRANSFER_PORT));
      }
      var dis := new ByteSource(env.incoming);
      var header := ReadHeader(dis);
      if header.None? {
        return Error("RECEIVE_ERROR", RECEIVE_ERROR_MESSAGE), None;
      }
      var path := FileRef(env.downloadsDir, header.value.fileName);
      if !env.fileOpenOk {
        return Error("RECEIVE_ERROR", RECEIVE_ERROR_MESSAGE), None;
      }
      var out := new ByteSink();
      ghost var reports;
      r, reports := ReceiveChunks(dis, out, header.value.fileSize, path);
      saved := Some(SavedFile(path, out.data));
    }

    /** The `readUTF` and `readLong` that start `receiveFile`; None where either throws. */
    method ReadHeader(dis: ByteSource) returns (h: Option<Header>)
      requires dis.Valid() && dis.pos == 0
      modifies dis
      ensures dis.Valid()
      ensures match DecodeHeader(dis.data)
        case None => h.None?
        case Some((header, k)) => h == Some(header) && dis.pos == k
    {
      var name := dis.ReadUtf();
      if name.None? {
        return None;
      }
      var size := dis.ReadLong();
      if size.None? {
        return None;
      }
      h := Some(Header(name.value, size.value));
    }

    /**
     * The data loop of `receiveFile`: reads chunks of at most what remains of the
     * declared size, and of its first truncated window, into `out` until that size is reached, the stream ends, `read`
     * rejects the count it is given, or `read` is asked for nothing.
     */
    method ReceiveChunks(dis: ByteSource, out: ByteSink, declared: int64, path: FileRef) returns (r: Reply, ghost reports: seq<Event>)
      requires dis.Valid() && out.data == []
      modifies dis, out, this`events
      ensures events == old(events) + reports
      ensures ReceivedBody(declared, old(dis.Remaining()), r, SavedFile(path, out.data), reports)
    {
      ghost var start := dis.pos;
      ghost var body := dis.Remaining();
      var buffer := new byte[BUFFER_SIZE];
      var totalReceived: int := 0;
      reports := [];
      while totalReceived < declared
        invariant dis.Valid()
        invariant 0 <= totalReceived && dis.pos == start + totalReceived
        invariant declared <= 0 ==> totalReceived == 0
        invariant declared > 0 ==> totalReceived <= Window(declared)
        invariant out.data == body[..totalReceived]
        invariant events == old(events) + reports
        invariant ProgressTrace(reports, totalReceived, declared)
        decreases declared - totalReceived
      {
        WindowAtMostDeclared(declared);
        RequestLengthAtMostRemaining(declared - totalReceived);
        if 0 <= ToInt32(declared) {
          WindowCountsDown(declared, totalReceived);
        }
        var request := RequestLength(declared - totalReceived);
        var got := dis.Read(buffer, request);
        if got.EndOfStream? {
          break;
        }
        if got.OutOfBounds? {
          return Error("RECEIVE_ERROR", RECEIVE_ERROR_MESSAGE), reports;
        }
        var n := got.count;
        if n == 0 {
          return Pending, reports;
        }
        assert body[..totalReceived + n] == body[..totalReceived] + buffer[..n];
        out.Write(buffer, n);
        ProgressTraceExtend(reports, totalReceived, declared, n);
        totalReceived := totalReceived + n;
        reports := reports + [TransferProgress(totalReceived, declared)];
        events := events + [TransferProgress(totalReceived, declared)];
      }
      r := Success(Received(totalReceived, path));
    }

    //--------------------------------------------------
    // Broadcast handling
    //--------------------------------------------------

    /** `requestPeerList` with the list the platform delivers; nothing happens without a manager. */
    method RequestPeerList(peers: seq<PeerDevice>)
      requires Valid()
      modifies this`events, this`calls
      ensures Valid()
      ensures !hasManager ==> events == old(events) && calls == old(calls)
      ensures hasManager ==>
        calls == old(calls) + [RequestPeers] && events == old(events) + [Event.PeersChanged(ProjectPeers(peers))]
    {
      if hasManager {
        calls := calls + [RequestPeers];
        events := events + [Event.PeersChanged(ProjectPeers(peers))];
      }
    }

    /**
     * `requestConnectionInfo` with the report the platform delivers. `serverOpened`
     * says whether the server socket the callback opens for an owner binds.
     */
    method RequestConnectionInfo(info: ConnectionInfo, serverOpened: bool)
      requires Valid()
      modifies this`isConnected, this`isGroupOwner, this`groupOwnerAddress, this`serverSocket, this`events, this`calls
      ensures Valid()
      ensures !hasManager ==> State() == old(State()) && events == old(events) && calls == old(calls)
      ensures hasManager ==>
        && State() == ConnectionInfoChanged(old(State()), info, serverOpened)
        && events == old(events) + [ConnectionEvent(info)]
        && calls == old(calls) + [PlatformCall.RequestConnectionInfo]
    {
      if !hasManager {
        return;
      }
      calls := calls + [PlatformCall.RequestConnectionInfo];
      if info.groupFormed {
        isConnected := true;
        isGroupOwner := info.isGroupOwner;
        groupOwnerAddress := info.groupOwnerAddress;
        events := events + [ConnectionFormed(isGroupOwner, HostAddress(groupOwnerAddress))];
        if isGroupOwner && serverSocket.None? && serverOpened {
          serverSocket := Some(ServerHandle(FILE_TRANSFER_PORT));
        }
      } else {
        isConnected := false;
        events := events + [ConnectionLost];
      }
    }

    /** `handleWifiDirectIntent`: one delivery of a broadcast to the receiver. */
    method HandleIntent(intent: Intent)
      requires Valid()
      modifies this`isConnected, this`isGroupOwner, this`groupOwnerAddress, this`serverSocket, this`events, this`calls
      ensures Valid()
      ensures intent.StateChanged? ==>
        State() == old(State()) && calls == old(calls)
        && events == old(events) + [WifiDirectStateChanged(intent.wifiState == WIFI_P2P_STATE_ENABLED)]
      ensures intent.PeersChanged? ==>
        State() == old(State())
        && events == old(events) + (if hasManager then [Event.PeersChanged(ProjectPeers(intent.peers))] else [])
        && calls == old(calls) + (if hasManager then [RequestPeers] else [])
      ensures intent.ConnectionChanged? ==>
        && State() == (if hasManager then ConnectionInfoChanged(old(State()), intent.info, intent.serverOpened) else old(State()))
        && events == old(events) + (if hasManager then [ConnectionEvent(intent.info)] else [])
        && calls == old(calls) + (if hasManager then [PlatformCall.RequestConnectionInfo] else [])
      ensures intent.ThisDeviceChanged? || intent.OtherAction? ==>
        State() == old(State()) && events == old(events) && calls == old(calls)
    {
      match intent
      case StateChanged(state) =>
        events := events + [WifiDirectStateChanged(state == WIFI_P2P_STATE_ENABLED)];
      case PeersChanged(peers) =>
        RequestPeerList(peers);
      case ConnectionChanged(info, serverOpened) =>
        RequestConnectionInfo(info, serverOpened);
      case ThisDeviceChanged =>
      case OtherAction =>
    }

    //--------------------------------------------------
    // Routing and teardown
    //--------------------------------------------------

    /**
     * `onMethodCall`: each known name reaches its own handler, any other name is
     * answered with `notImplemented` and changes nothing.
     */
    method OnMethodCall(call: MethodCall, p: Platform) returns (r: Reply, io: TransferIo)
      requires Valid()
      modifies this
      ensures Valid()
      ensures Dispatch(call.methodName) != Some(Command.SendFile) ==> io == NO_TRANSFER
      ensures Dispatch(call.methodName).None? ==> r == NotImplemented && unchanged(this)
      ensures Dispatch(call.methodName) == Some(Command.IsWifiDirectSupported) ==>
        r == Success(Flag(p.wifiDirectFeature)) && unchanged(this)
      ensures Dispatch(call.methodName) == Some(Command.IsWifiDirectEnabled) ==>
        r == Success(Flag(hasManager)) && unchanged(this)
      ensures Dispatch(call.methodName) == Some(Command.Disconnect) ==>
        State() == (if Initialized() then Disconnected(old(State()), p.removeGroupOk) else old(State()))
      ensures Dispatch(call.methodName) in {Some(Command.Initialize), Some(Command.StartDiscovery), Some(Command.StopDiscovery), Some(Command.Connect)} ==>
        State() == old(State()) && events == old(events)
    {
      io := NO_TRANSFER;
      match Dispatch(call.methodName)
      case None => r := NotImplemented;
      case Some(Initialize) => r := Initialize();
      case Some(StartDiscovery) => r := StartDiscovery(p.permissionsGranted, p.discoverOutcome);
      case Some(StopDiscovery) => r := StopDiscovery(p.stopOutcome);
      case Some(Connect) => r := Connect(call.arguments.deviceAddress, p.connectOutcome);
      case Some(Disconnect) => r := Disconnect(p.removeGroupOk);
      case Some(SendFile) => r, io := SendFile(call.arguments, p.transfer);
      case Some(IsWifiDirectSupported) => r := IsWifiDirectSupported(p.wifiDirectFeature);
      case Some(IsWifiDirectEnabled) => r := IsWifiDirectEnabled();
    }

    /**
     * `onDetachedFromEngine` with `cleanup`: the receiver the plugin last created
     * is unregistered (where it is not registered the failure is swallowed), the
     * sockets are closed and the manager and channel are dropped.
     */
    method OnDetachedFromEngine()
      requires Valid()
      modifies this
      ensures Valid()
      ensures registeredReceivers == (if old(latestRegistered) then old(registeredReceivers) - 1 else old(registeredReceivers))
      ensures !latestRegistered && !hasManager && !hasChannel
      ensures State() == ConnectionsClosed(old(State()))
      ensures calls == old(calls) + [UnregisterReceiver] && events == old(events)
    {
      calls := calls + [UnregisterReceiver];
      if latestRegistered {
        registeredReceivers := registeredReceivers - 1;
        latestRegistered := false;
      }
      CloseConnections();
      hasChannel := false;
      hasManager := false;
    }
  }
}
