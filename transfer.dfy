/**
 * What one file transfer does, stated on values: the chunk size the receive loop
 * asks for, the progress reports both loops emit, and the complete outcome of a
 * send and of a receive (reply, bytes on the wire or on disk, reports). The loops
 * themselves are in the plugin class; their contracts are these predicates.
 */
module Transfer {
  import opened Wire
  import opened Channel
  import opened Session

  const BUFFER_SIZE: int := 8192
  const TWO_31: int := 0x8000_0000
  const TWO_32: int := 0x1_0000_0000

  const SEND_ERROR_MESSAGE: string := "Failed to send file: "
  const RECEIVE_ERROR_MESSAGE: string := "Failed to receive file: "
  const NO_ADDRESS_MESSAGE: string := "Group owner address not available"

  //--------------------------------------------------
  // The receive loop's request size
  //--------------------------------------------------

  /** Kotlin's `Long.toInt()`: the low 32 bits, as a two's complement int. */
  function ToInt32(x: int64): int32
  {
    var low := x % TWO_32;
    if low >= TWO_31 then low - TWO_32 else low
  }

  /** `minOf(buffer.size, remaining.toInt())`: how many bytes the receive loop asks `read` for. */
  function RequestLength(remaining: int64): int
  {
    var n := ToInt32(remaining);
    if BUFFER_SIZE <= n then BUFFER_SIZE else n
  }

  /** While what remains fits in an int, each request asks for between 1 and 8192 bytes and never for more than remains. */
  lemma RequestLengthInRange(remaining: int64)
    requires 0 < remaining < TWO_31
    ensures 1 <= RequestLength(remaining) <= BUFFER_SIZE
    ensures RequestLength(remaining) == if remaining < BUFFER_SIZE then remaining else BUFFER_SIZE
  {
  }

  /** A request never asks for more than remains, nor for more than the buffer holds. */
  lemma RequestLengthAtMostRemaining(remaining: int64)
    requires 0 < remaining
    ensures RequestLength(remaining) <= remaining
    ensures RequestLength(remaining) <= BUFFER_SIZE
  {
  }

  /**
   * The first truncated window: how many bytes the receive loop can take before
   * its request, counted down from `declared.toInt()`, reaches 0 (none when that
   * value is negative).
   */
  function Window(declared: int64): (w: nat)
    ensures w < TWO_31
  {
    var n := ToInt32(declared);
    if n < 0 then 0 else n
  }

  /** An int equal to q * 2^32 + low with 0 <= low < 2^32 has low as its low 32 bits. */
  lemma LowBits(x: int, q: int, low: int)
    requires 0 <= low < TWO_32 && x == q * TWO_32 + low
    ensures x % TWO_32 == low
  {
  }

  /**
   * Within the window, taking t bytes lowers the truncated remainder by exactly t:
   * the loop's requests count down from the window, not from the declared size.
   */
  lemma {:induction false} WindowCountsDown(declared: int64, t: int)
    requires 0 < declared && 0 <= ToInt32(declared) && 0 <= t <= Window(declared)
    ensures ToInt32(declared - t) == Window(declared) - t
  {
    var w := Window(declared);
    var q := declared / TWO_32;
    assert declared % TWO_32 == w;
    assert declared == q * TWO_32 + w;
    LowBits(declared - t, q, w - t);
  }

  /** The window never exceeds a positive declared size, and equals it below 2^31. */
  lemma WindowAtMostDeclared(declared: int64)
    requires 0 < declared
    ensures Window(declared) <= declared
    ensures declared < TWO_31 ==> Window(declared) == declared
  {
  }

  /**
   * Examples of the truncation beyond 2^31: with 2^32 bytes remaining the loop
   * asks for 0 bytes, with 2^31 remaining for a negative count, and with 2^32 + 5
   * remaining for just 5. The general statements are `WindowCountsDown` and
   * `ReceiveAtOrAboveTwo31`.
   */
  lemma RequestLengthTruncates()
    ensures RequestLength(TWO_32) == 0
    ensures RequestLength(TWO_31) < 0
    ensures RequestLength(TWO_32 + 5) == 5
  {
  }

  //--------------------------------------------------
  // Progress reports
  //--------------------------------------------------

  /** The byte count of the last report, 0 before the first one. */
  function LastReported(ps: seq<Event>): int
  {
    if ps == [] || !ps[|ps| - 1].TransferProgress? then 0 else ps[|ps| - 1].bytesTransferred
  }

  /**
   * The reports of a transfer that has moved `total` bytes of a declared
   * `declared`: one per chunk, each chunk of 1 to 8192 bytes, each report
   * carrying the running count and the declared size.
   */
  predicate ProgressTrace(ps: seq<Event>, total: int, declared: int)
    decreases |ps|
  {
    if ps == [] then total == 0
    else
      var init := ps[..|ps| - 1];
      var prev := LastReported(init);
      && ps[|ps| - 1] == TransferProgress(total, declared)
      && prev < total <= prev + BUFFER_SIZE
      && ProgressTrace(init, prev, declared)
  }

  /** One more chunk of 1 to 8192 bytes adds one report. */
  lemma ProgressTraceExtend(ps: seq<Event>, total: int, declared: int, chunk: int)
    requires ProgressTrace(ps, total, declared)
    requires 0 < chunk <= BUFFER_SIZE
    ensures ProgressTrace(ps + [TransferProgress(total + chunk, declared)], total + chunk, declared)
  {
    var qs := ps + [TransferProgress(total + chunk, declared)];
    assert qs[..|qs| - 1] == ps;
    assert LastReported(ps) == total;
  }

  /**
   * What the reports promise the Flutter side: the byte counts strictly increase,
   * the total is the same in every report, the last report carries the final
   * count, and a transfer that moves no bytes reports nothing.
   */
  lemma {:induction false} ProgressTraceFacts(ps: seq<Event>, total: int, declared: int)
    requires ProgressTrace(ps, total, declared)
    ensures ps == [] <==> total == 0
    ensures 0 <= total <= |ps| * BUFFER_SIZE
    ensures ps != [] ==> ps[|ps| - 1].bytesTransferred == total
    ensures forall i :: 0 <= i < |ps| ==>
      ps[i].TransferProgress? && ps[i].totalBytes == declared && 0 < ps[i].bytesTransferred <= total
    ensures forall i, j :: 0 <= i < j < |ps| ==> ps[i].bytesTransferred < ps[j].bytesTransferred
  {
    if ps != [] {
      var init := ps[..|ps| - 1];
      var prev := LastReported(init);
      ProgressTraceFacts(init, prev, declared);
      forall i | 0 <= i < |init| ensures ps[i] == init[i] {}
    }
  }

  //--------------------------------------------------
  // The send side
  //--------------------------------------------------

  /**
   * The local file at the path a send names: absent, present but not readable
   * (a directory, or a file the app may not open), or readable with these bytes.
   */
  datatype LocalFile = Missing | Unreadable | Readable(bytes: seq<byte>)

  /**
   * The outcome of `sendFileToGroupOwner` with `address` as the owner address,
   * `file` as the local file and `connectOk` saying whether the socket
   * connects: the reply, the bytes written to the socket, and the reports.
   */
  predicate SendSpec(address: Option<InetAddress>, file: LocalFile, name: JString, size: int64, connectOk: bool,
                     r: Reply, wire: seq<byte>, reports: seq<Event>)
  {
    if address.None? then r == Error("NO_ADDRESS", NO_ADDRESS_MESSAGE) && wire == [] && reports == []
    else if !connectOk then r == Error("SEND_ERROR", SEND_ERROR_MESSAGE) && wire == [] && reports == []
    else match EncodeHeader(Header(name, size))
      case None => r == Error("SEND_ERROR", SEND_ERROR_MESSAGE) && wire == [] && reports == []
      case Some(header) =>
        if !file.Readable? then
          // FileInputStream throws after the header has gone out
          r == Error("SEND_ERROR", SEND_ERROR_MESSAGE) && wire == header && reports == []
        else
          && r == Success(Sent(|file.bytes|))
          && wire == header + file.bytes
          && ProgressTrace(reports, |file.bytes|, size)
  }

  //--------------------------------------------------
  // The receive side
  //--------------------------------------------------

  /** What the platform supplies to one receive. */
  datatype ReceivePlatform = ReceivePlatform(
    bindOk: bool,                   // ServerSocket(8988) succeeds, where one has to be opened
    incoming: seq<byte>,            // the bytes the accepted connection delivers before its end
    downloadsDir: Option<string>,   // getExternalFilesDir(null)
    fileOpenOk: bool)               // FileOutputStream(file) succeeds

  /**
   * The data phase of a receive with `declared` bytes announced and `body` the
   * bytes that follow the header: the file holds a prefix of the body, one report
   * per chunk, never more than the first truncated window allows, and the loop
   * ends in one of four ways, told apart by what remains.
   */
  predicate ReceivedBody(declared: int64, body: seq<byte>, r: Reply, file: SavedFile, reports: seq<Event>)
  {
    var n := |file.contents|;
    && n <= |body|
    && file.contents == body[..n]
    && ProgressTrace(reports, n, declared)
    && (declared <= 0 ==> n == 0)
    && (declared > 0 ==> n <= Window(declared))
    && var remaining: int64 := declared - n;
       if remaining <= 0 then r == Success(Received(n, file.path))                 // declared size reached
       else if RequestLength(remaining) < 0 then r == Error("RECEIVE_ERROR", RECEIVE_ERROR_MESSAGE) // read rejects the count
       else if RequestLength(remaining) == 0 then r == Pending                     // read returns 0 forever
       else n == |body| && r == Success(Received(n, file.path))                    // end of stream first
  }

  /**
   * The outcome of `receiveFile` when the server socket was `serverWas`: the
   * reply, the file written (None where none was created) and the reports.
   * The new server socket is `ServerForReceive`, and the file is named by the
   * name received on the wire.
   */
  predicate ReceiveSpec(env: ReceivePlatform, serverWas: Option<ServerHandle>, r: Reply, saved: Option<SavedFile>, reports: seq<Event>)
  {
    if serverWas.None? && !env.bindOk then
      r == Error("RECEIVE_ERROR", RECEIVE_ERROR_MESSAGE) && saved.None? && reports == []
    else match DecodeHeader(env.incoming)
      case None => r == Error("RECEIVE_ERROR", RECEIVE_ERROR_MESSAGE) && saved.None? && reports == []
      case Some((h, k)) =>
        if !env.fileOpenOk then r == Error("RECEIVE_ERROR", RECEIVE_ERROR_MESSAGE) && saved.None? && reports == []
        else
          && saved.Some?
          && saved.value.path == FileRef(env.downloadsDir, h.fileName)
          && ReceivedBody(h.fileSize, env.incoming[k..], r, saved.value, reports)
  }

  /**
   * A declared size below 2^31 always ends the loop with success: nothing is
   * written for a size of 0 or less, and otherwise exactly the smaller of the
   * declared size and what the stream holds, so a stream that ends early still
   * reports success.
   */
  lemma ReceiveBelowTwo31Succeeds(declared: int64, body: seq<byte>, r: Reply, file: SavedFile, reports: seq<Event>)
    requires ReceivedBody(declared, body, r, file, reports)
    requires declared < TWO_31
    ensures |file.contents| == if declared <= 0 then 0 else if declared < |body| then declared else |body|
    ensures r == Success(Received(|file.contents|, file.path))
  {
    var n := |file.contents|;
    if declared > 0 {
      WindowAtMostDeclared(declared);
    }
    if declared - n > 0 {
      RequestLengthInRange(declared - n);
    }
  }

  /**
   * A declared size of 2^31 or more is read through its truncated window W, the
   * low 32 bits of the size as a signed int: a negative W fails at the first
   * read and a zero W stalls, both with an empty file; otherwise min(W, |body|)
   * bytes are saved, and the loop then stalls if it got all of W and succeeds if
   * the stream ended first.
   */
  lemma ReceiveAtOrAboveTwo31(declared: int64, body: seq<byte>, r: Reply, file: SavedFile, reports: seq<Event>)
    requires ReceivedBody(declared, body, r, file, reports)
    requires declared >= TWO_31
    ensures ToInt32(declared) < 0 ==>
      |file.contents| == 0 && r == Error("RECEIVE_ERROR", RECEIVE_ERROR_MESSAGE)
    ensures ToInt32(declared) == 0 ==> |file.contents| == 0 && r == Pending
    ensures ToInt32(declared) > 0 ==>
      && |file.contents| == (if |body| < ToInt32(declared) then |body| else ToInt32(declared))
      && r == (if |body| < ToInt32(declared) then Success(Received(|body|, file.path)) else Pending)
  {
    var n := |file.contents|;
    var w := ToInt32(declared);
    if w >= 0 {
      WindowCountsDown(declared, n);
      assert ToInt32(declared - n) == w - n;
    }
  }

  /**
   * End to end: what a successful send writes, a receive reads back. The file is
   * saved under the sent name and holds the first `size` bytes of the sent file
   * (all of it when the declared size is honest), and the receiver reports the
   * count it saved. This holds for a declared size from 0 to 2^31 - 1; larger
   * sizes are the subject of `HonestLargeSendNotReceived`.
   */
  lemma SendThenReceive(address: Option<InetAddress>, file: seq<byte>, name: JString, size: int64, connectOk: bool,
                        rs: Reply, wire: seq<byte>, sendReports: seq<Event>,
                        env: ReceivePlatform, serverWas: Option<ServerHandle>, rr: Reply, saved: Option<SavedFile>, recvReports: seq<Event>)
    requires SendSpec(address, Readable(file), name, size, connectOk, rs, wire, sendReports) && rs.Success?
    requires env.incoming == wire && env.fileOpenOk && (serverWas.Some? || env.bindOk)
    requires ReceiveSpec(env, serverWas, rr, saved, recvReports)
    requires 0 <= size < TWO_31
    ensures saved.Some? && saved.value.path.name == name
    ensures saved.value.contents == file[..if size < |file| then size else |file|]
    ensures size == |file| ==> saved.value.contents == file && rr == Success(Received(|file|, saved.value.path)) && rs == Success(Sent(|file|))
  {
    var header := EncodeHeader(Header(name, size)).value;
    HeaderRoundTrip(Header(name, size), file);
    var k := |header|;
    assert wire[k..] == file;
    ReceiveBelowTwo31Succeeds(size, file, rr, saved.value, recvReports);
  }

  /**
   * A file of 2^31 bytes or more, sent with its honest size, is never received
   * whole: the receiver saves a proper prefix of it under the sent name and
   * never answers success, whatever the low 32 bits of the size are.
   */
  lemma HonestLargeSendNotReceived(address: Option<InetAddress>, file: seq<byte>, name: JString, size: int64, connectOk: bool,
                                   rs: Reply, wire: seq<byte>, sendReports: seq<Event>,
                                   env: ReceivePlatform, serverWas: Option<ServerHandle>, rr: Reply, saved: Option<SavedFile>, recvReports: seq<Event>)
    requires SendSpec(address, Readable(file), name, size, connectOk, rs, wire, sendReports) && rs.Success?
    requires env.incoming == wire && env.fileOpenOk && (serverWas.Some? || env.bindOk)
    requires ReceiveSpec(env, serverWas, rr, saved, recvReports)
    requires size == |file| && size >= TWO_31
    ensures saved.Some? && saved.value.path.name == name
    ensures saved.value.contents < file
    ensures !rr.Success?
  {
    var header := EncodeHeader(Header(name, size)).value;
    HeaderRoundTrip(Header(name, size), file);
    var k := |header|;
    assert wire[k..] == file;
    ReceiveAtOrAboveTwo31(size, file, rr, saved.value, recvReports);
  }
}
