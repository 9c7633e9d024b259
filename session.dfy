/**
 * The plugin's connection/session state and how the three occasions that change
 * it do so: the connection-changed callback, `disconnect` with
 * `closeConnections`, and the lazy opening of the server socket by a receive.
 * Sockets are abstract handles: present (open) or absent.
 */
module Session {
  import opened Wire
  import opened Channel

  const FILE_TRANSFER_PORT: int := 8988

  datatype InetAddress = InetAddress(hostAddress: string)

  /** A listening `ServerSocket`. */
  datatype ServerHandle = ServerHandle(port: int)

  /** A connected client `Socket`. */
  datatype ClientHandle = ClientHandle(address: InetAddress, port: int)

  /** What the platform's `WifiP2pInfo` reports on a connection change. */
  datatype ConnectionInfo = ConnectionInfo(groupFormed: bool, isGroupOwner: bool, groupOwnerAddress: Option<InetAddress>)

  /** The plugin's session fields. */
  datatype State = State(
    isConnected: bool,
    isGroupOwner: bool,
    connectedDevice: Option<PeerDevice>,
    groupOwnerAddress: Option<InetAddress>,
    serverSocket: Option<ServerHandle>,
    clientSocket: Option<ClientHandle>)

  /** The field initialisers: nothing connected, no sockets. */
  const Initial: State := State(false, false, None, None, None, None)

  /**
   * Between handler calls no client socket is held: a send opens one and clears
   * it on every path before it returns.
   */
  predicate WellFormed(s: State)
  {
    s.clientSocket.None?
  }

  /**
   * The connection-info callback. `serverOpened` says whether `ServerSocket(8988)`,
   * which the callback starts when it finds the local side to be owner without a
   * server socket, succeeds.
   */
  function ConnectionInfoChanged(s: State, info: ConnectionInfo, serverOpened: bool): State
  {
    if info.groupFormed then
      var t := s.(isConnected := true, isGroupOwner := info.isGroupOwner, groupOwnerAddress := info.groupOwnerAddress);
      if t.isGroupOwner && t.serverSocket.None? && serverOpened then t.(serverSocket := Some(ServerHandle(FILE_TRANSFER_PORT)))
      else t
    else s.(isConnected := false)
  }

  function HostAddress(a: Option<InetAddress>): Option<string>
  {
    if a.Some? then Some(a.value.hostAddress) else None
  }

  /** The onConnectionChanged event the callback publishes. */
  function ConnectionEvent(info: ConnectionInfo): Event
  {
    if info.groupFormed then ConnectionFormed(info.isGroupOwner, HostAddress(info.groupOwnerAddress)) else ConnectionLost
  }

  /** `closeConnections`. */
  function ConnectionsClosed(s: State): State
  {
    s.(clientSocket := None, serverSocket := None)
  }

  /** `disconnect` once initialised: close the sockets, then `removeGroup`, whose success is `removed`. */
  function Disconnected(s: State, removed: bool): State
  {
    var t := ConnectionsClosed(s);
    if removed then t.(isConnected := false, connectedDevice := None) else t
  }

  /** The server socket a receive finds or opens: None when it had to open one and binding failed. */
  function ServerForReceive(s: State, bindOk: bool): Option<ServerHandle>
  {
    if s.serverSocket.Some? then s.serverSocket
    else if bindOk then Some(ServerHandle(FILE_TRANSFER_PORT))
    else None
  }

  //--------------------------------------------------
  // Properties of the transitions
  //--------------------------------------------------

  /**
   * A formed group marks the session connected and copies the role and the owner
   * address from the report; the sockets and the connected device are kept,
   * except that a server socket is added for an owner that has none.
   */
  lemma GroupFormedRecordsInfo(s: State, info: ConnectionInfo, serverOpened: bool)
    requires info.groupFormed
    ensures var t := ConnectionInfoChanged(s, info, serverOpened);
      && t.isConnected
      && t.isGroupOwner == info.isGroupOwner
      && t.groupOwnerAddress == info.groupOwnerAddress
      && t.connectedDevice == s.connectedDevice
      && t.clientSocket == s.clientSocket
      && t.serverSocket == (if info.isGroupOwner && s.serverSocket.None? && serverOpened
                            then Some(ServerHandle(FILE_TRANSFER_PORT)) else s.serverSocket)
    ensures ConnectionEvent(info) == ConnectionFormed(info.isGroupOwner, HostAddress(info.groupOwnerAddress))
  {
  }

  /** A group that is no longer formed only clears `isConnected`: role, address, device and sockets stay. */
  lemma GroupLostOnlyClearsConnected(s: State, info: ConnectionInfo, serverOpened: bool)
    requires !info.groupFormed
    ensures ConnectionInfoChanged(s, info, serverOpened) == s.(isConnected := false)
    ensures ConnectionEvent(info) == ConnectionLost
  {
  }

  /**
   * The server socket is created lazily and at most once: an existing one is never
   * replaced, and a new one appears only for a formed group in which the local
   * side is owner.
   */
  lemma ServerSocketCreatedOnce(s: State, info: ConnectionInfo, serverOpened: bool, bindOk: bool)
    ensures s.serverSocket.Some? ==> ConnectionInfoChanged(s, info, serverOpened).serverSocket == s.serverSocket
    ensures s.serverSocket.Some? ==> ServerForReceive(s, bindOk) == s.serverSocket
    ensures ConnectionInfoChanged(s, info, serverOpened).serverSocket != s.serverSocket ==>
      s.serverSocket.None? && info.groupFormed && info.isGroupOwner && serverOpened
    ensures ServerForReceive(s, bindOk).None? <==> s.serverSocket.None? && !bindOk
  {
  }

  /**
   * After `disconnect` both socket fields are clear and the role and address are
   * kept; the session is marked disconnected, and its device forgotten, only when
   * `removeGroup` succeeded.
   */
  lemma DisconnectClosesSockets(s: State, removed: bool)
    ensures var t := Disconnected(s, removed);
      && t.serverSocket.None? && t.clientSocket.None?
      && t.isGroupOwner == s.isGroupOwner && t.groupOwnerAddress == s.groupOwnerAddress
      && t.isConnected == (s.isConnected && !removed)
      && t.connectedDevice == (if removed then None else s.connectedDevice)
  {
  }

  /** Disconnecting twice with the same outcome is the same as disconnecting once. */
  lemma DisconnectIdempotent(s: State, removed: bool)
    ensures Disconnected(Disconnected(s, removed), removed) == Disconnected(s, removed)
  {
  }

  /** No transition leaves a client socket behind. */
  lemma TransitionsKeepWellFormed(s: State, info: ConnectionInfo, serverOpened: bool, removed: bool, bindOk: bool)
    requires WellFormed(s)
    ensures WellFormed(ConnectionInfoChanged(s, info, serverOpened))
    ensures WellFormed(Disconnected(s, removed))
    ensures WellFormed(s.(serverSocket := ServerForReceive(s, bindOk)))
  {
  }

  /**
   * Nothing but `disconnect` closes the listening socket: after an episode as
   * owner, a lost group and a new group in which the local side is a client, the
   * session is a connected client that still holds the old server socket.
   */
  lemma OwnerSocketOutlivesRole(s: State, owner: ConnectionInfo, lost: ConnectionInfo, client: ConnectionInfo, bound: bool, rebound: bool)
    requires s.serverSocket.None? && bound
    requires owner.groupFormed && owner.isGroupOwner
    requires !lost.groupFormed
    requires client.groupFormed && !client.isGroupOwner
    ensures var t := ConnectionInfoChanged(ConnectionInfoChanged(ConnectionInfoChanged(s, owner, bound), lost, rebound), client, rebound);
      && t.isConnected && !t.isGroupOwner
      && t.groupOwnerAddress == client.groupOwnerAddress
      && t.serverSocket == Some(ServerHandle(FILE_TRANSFER_PORT))
    ensures Disconnected(ConnectionInfoChanged(s, owner, bound), false).serverSocket.None?
  {
    var t1 := ConnectionInfoChanged(s, owner, bound);
    GroupFormedRecordsInfo(s, owner, bound);
    var t2 := ConnectionInfoChanged(t1, lost, rebound);
    GroupLostOnlyClearsConnected(t1, lost, rebound);
    GroupFormedRecordsInfo(t2, client, rebound);
  }
}
