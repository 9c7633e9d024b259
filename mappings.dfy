/**
 * The plugin's expression-only helpers: the text for a platform failure code,
 * the projection of the platform's peer list and the routing of a
 * method-channel call by its name.
 */
module Mappings {
  import opened Wire
  import opened Channel

  // WifiP2pManager failure codes.
  const ERROR: int := 0
  const P2P_UNSUPPORTED: int := 1
  const BUSY: int := 2
  const NO_SERVICE_REQUESTS: int := 3

  // WifiP2pManager.WIFI_P2P_STATE_ENABLED.
  const WIFI_P2P_STATE_ENABLED: int := 2

  // WifiP2pDevice.CONNECTED.
  const CONNECTED: int := 0

  //--------------------------------------------------
  // Decimal text of an int (Kotlin string templates)
  //--------------------------------------------------

  predicate IsDigits(s: string)
  {
    forall i :: 0 <= i < |s| ==> '0' <= s[i] <= '9'
  }

  function NatToDecimal(n: nat): (s: string)
    ensures |s| >= 1 && IsDigits(s)
  {
    var d := ('0' as int + n % 10) as char;
    if n < 10 then [d] else NatToDecimal(n / 10) + [d]
  }

  function IntToDecimal(n: int): (s: string)
    ensures |s| >= 1
  {
    if n < 0 then "-" + NatToDecimal(-n) else NatToDecimal(n)
  }

  /** The value of a string of decimal digits. */
  function DecimalValue(s: string): nat
    requires IsDigits(s)
  {
    if s == [] then 0 else DecimalValue(s[..|s| - 1]) * 10 + (s[|s| - 1] as int - '0' as int)
  }

  /** The value of `IntToDecimal`'s output format, an optional minus sign and digits. */
  function ParseDecimal(s: string): int
  {
    if |s| > 0 && s[0] == '-' && IsDigits(s[1..]) then 0 - DecimalValue(s[1..])
    else if IsDigits(s) then DecimalValue(s)
    else 0
  }

  lemma {:induction false} NatDecimalRoundTrip(n: nat)
    ensures DecimalValue(NatToDecimal(n)) == n
  {
    var d := ('0' as int + n % 10) as char;
    if n >= 10 {
      var s := NatToDecimal(n / 10) + [d];
      assert s[..|s| - 1] == NatToDecimal(n / 10);
      NatDecimalRoundTrip(n / 10);
    }
  }

  /** The decimal text of an int reads back as that int, so distinct ints have distinct texts. */
  lemma DecimalRoundTrip(n: int)
    ensures ParseDecimal(IntToDecimal(n)) == n
  {
    var s := IntToDecimal(n);
    if n < 0 {
      assert s[0] == '-' && s[1..] == NatToDecimal(-n);
      NatDecimalRoundTrip(-n);
    } else {
      assert s == NatToDecimal(n);
      assert s[0] != '-';
      NatDecimalRoundTrip(n);
    }
  }

  //--------------------------------------------------
  // getFailureReason
  //--------------------------------------------------

  const UNKNOWN_PREFIX: string := "Unknown error ("

  function FailureReason(reason: int32): string
  {
    if reason == ERROR then "Internal error"
    else if reason == P2P_UNSUPPORTED then "P2P unsupported"
    else if reason == BUSY then "System busy"
    else if reason == NO_SERVICE_REQUESTS then "No service requests"
    else UNKNOWN_PREFIX + IntToDecimal(reason) + ")"
  }

  /**
   * The four documented codes have fixed texts of their own; every other code
   * is reported as unknown with its number, and no two codes share a text.
   */
  lemma FailureReasonInjective(a: int32, b: int32)
    ensures !(0 <= a <= 3) ==> FailureReason(a) == UNKNOWN_PREFIX + IntToDecimal(a) + ")"
    ensures 0 <= a <= 3 ==> FailureReason(a)[0] != 'U'
    ensures FailureReason(a) == FailureReason(b) ==> a == b
  {
    if 0 <= a <= 3 || 0 <= b <= 3 {
      assert FailureReason(a)[0] != 'U' || FailureReason(b)[0] != 'U';
    }
    if FailureReason(a) == FailureReason(b) {
      if !(0 <= a <= 3) && !(0 <= b <= 3) {
        var da, db := IntToDecimal(a), IntToDecimal(b);
        var sa, sb := UNKNOWN_PREFIX + da + ")", UNKNOWN_PREFIX + db + ")";
        assert sa == FailureReason(a) && sb == FailureReason(b);
        assert |da| == |db|;
        assert sa[|UNKNOWN_PREFIX|..|sa| - 1] == da;
        assert sb[|UNKNOWN_PREFIX|..|sb| - 1] == db;
        assert da == db;
        DecimalRoundTrip(a);
        DecimalRoundTrip(b);
        assert a == ParseDecimal(da) == ParseDecimal(db) == b;
      }
    }
  }

  //--------------------------------------------------
  // The peer list published on onPeersChanged
  //--------------------------------------------------

  function ProjectPeer(d: PeerDevice): PeerEntry
  {
    PeerEntry(d.deviceName, d.deviceAddress, d.status, d.status == CONNECTED)
  }

  function ProjectPeers(devices: seq<PeerDevice>): seq<PeerEntry>
  {
    if devices == [] then [] else [ProjectPeer(devices[0])] + ProjectPeers(devices[1..])
  }

  /** The device a published entry was made from. */
  function EntryDevice(e: PeerEntry): PeerDevice
  {
    PeerDevice(e.deviceName, e.deviceAddress, e.status)
  }

  /**
   * The published list holds one entry per reported peer, in the platform's
   * order, carrying its name, address and status unchanged; an entry is flagged
   * as group owner exactly when the peer's status is CONNECTED.
   */
  lemma {:induction false} ProjectPeersFaithful(devices: seq<PeerDevice>)
    ensures |ProjectPeers(devices)| == |devices|
    ensures forall i :: 0 <= i < |devices| ==>
      EntryDevice(ProjectPeers(devices)[i]) == devices[i]
      && (ProjectPeers(devices)[i].isGroupOwner <==> devices[i].status == CONNECTED)
  {
    if devices != [] {
      ProjectPeersFaithful(devices[1..]);
      var r := ProjectPeers(devices);
      assert r[1..] == ProjectPeers(devices[1..]);
      forall i | 0 < i < |devices|
        ensures EntryDevice(r[i]) == devices[i] && (r[i].isGroupOwner <==> devices[i].status == CONNECTED)
      {
        assert r[i] == ProjectPeers(devices[1..])[i - 1];
      }
    }
  }

  //--------------------------------------------------
  // onMethodCall routing
  //--------------------------------------------------

  datatype Command =
    | Initialize
    | StartDiscovery
    | StopDiscovery
    | Connect
    | Disconnect
    | SendFile
    | IsWifiDirectSupported
    | IsWifiDirectEnabled

  /** The method-channel name each handler answers to. */
  function MethodName(c: Command): string
  {
    match c
    case Initialize => "initialize"
    case StartDiscovery => "startDiscovery"
    case StopDiscovery => "stopDiscovery"
    case Connect => "connect"
    case Disconnect => "disconnect"
    case SendFile => "sendFile"
    case IsWifiDirectSupported => "isWifiDirectSupported"
    case IsWifiDirectEnabled => "isWifiDirectEnabled"
  }

  /** The handler `onMethodCall` routes a call to; None means `notImplemented`. */
  function Dispatch(name: string): Option<Command>
  {
    if name == "initialize" then Some(Initialize)
    else if name == "startDiscovery" then Some(StartDiscovery)
    else if name == "stopDiscovery" then Some(StopDiscovery)
    else if name == "connect" then Some(Connect)
    else if name == "disconnect" then Some(Disconnect)
    else if name == "sendFile" then Some(SendFile)
    else if name == "isWifiDirectSupported" then Some(IsWifiDirectSupported)
    else if name == "isWifiDirectEnabled" then Some(IsWifiDirectEnabled)
    else None
  }

  /** Every handler is reached by its own name and by no other: routing and naming are inverse. */
  lemma DispatchInvertsMethodName(c: Command, name: string)
    ensures Dispatch(MethodName(c)) == Some(c)
    ensures Dispatch(name).Some? ==> MethodName(Dispatch(name).value) == name
    ensures Dispatch(name).None? <==> (forall d: Command {:trigger MethodName(d)} :: MethodName(d) != name)
  {

  }
}
