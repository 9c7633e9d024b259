/**
 * The values that cross the plugin's boundaries: the answers it gives to the
 * Flutter side's method calls, the events it pushes to the Flutter side, and the
 * records it gets from and hands to the WiFi P2P platform service.
 */
module Channel {
  import opened Wire

  /** A file named by `File(dir, name)`; `dir` is None where `getExternalFilesDir` gave null. */
  datatype FileRef = FileRef(dir: Option<string>, name: JString)

  /** A file the receiver created, with the bytes written to it. */
  datatype SavedFile = SavedFile(path: FileRef, contents: seq<byte>)

  /** The success payloads of the plugin's replies. */
  datatype Value =
    | Flag(b: bool)
    | Sent(bytesSent: int)                            // { success: true, bytesSent }
    | Received(bytesReceived: int, filePath: FileRef) // { success: true, bytesReceived, filePath }

  /**
   * How a method call is answered: `result.success`, `result.error`,
   * `result.notImplemented`, or never (`Pending`: the handler does not return).
   */
  datatype Reply =
    | Success(value: Value)
    | Error(code: string, message: string)
    | NotImplemented
    | Pending

  /** A peer as the platform's peer list reports it (`WifiP2pDevice`). */
  datatype PeerDevice = PeerDevice(deviceName: string, deviceAddress: string, status: int)

  /** A peer as the plugin publishes it to the Flutter side. */
  datatype PeerEntry = PeerEntry(deviceName: string, deviceAddress: string, status: int, isGroupOwner: bool)

  /** What `channel.invokeMethod` pushes to the Flutter side. */
  datatype Event =
    | WifiDirectStateChanged(enabled: bool)
    | PeersChanged(devices: seq<PeerEntry>)
    | ConnectionFormed(isGroupOwner: bool, groupOwnerAddress: Option<string>) // onConnectionChanged, isConnected = true
    | ConnectionLost                                                           // onConnectionChanged, isConnected = false
    | TransferProgress(bytesTransferred: int, totalBytes: int)                 // onTransferProgress (percent left abstract)
}
