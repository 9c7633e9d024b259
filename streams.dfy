/**
 * The `java.io` streams the transfer runs over, with the bytes that flow through
 * them made explicit. A `ByteSource` stands for a socket's or a file's input
 * stream: the bytes it will deliver before end of stream, and how many it has
 * delivered. A `ByteSink` stands for a socket's or a file's output stream: the
 * bytes written to it so far.
 */
module Streams {
  import opened Wire

  /** What one call of `InputStream.read(b, 0, len)` produces. */
  datatype ReadResult =
    | Got(count: nat)     // `count` bytes were copied into the buffer
    | EndOfStream         // `read` returned -1
    | OutOfBounds         // `read` threw IndexOutOfBoundsException (len < 0 or len > b.length)

  class ByteSource {
    /** Everything the stream delivers before end of stream. */
    const data: seq<byte>
    /** How many bytes have been consumed. */
    var pos: nat

    ghost predicate Valid()
      reads this
    {
      pos <= |data|
    }

    /** The bytes not yet consumed. */
    function Remaining(): (r: seq<byte>)
      reads this
      requires Valid()
      ensures data == data[..pos] + r
    {
      data[pos..]
    }

    constructor (data: seq<byte>)
      ensures Valid() && this.data == data && pos == 0
    {
      this.data := data;
      pos := 0;
    }

    /**
     * `read(buf, 0, len)`. An input stream may deliver fewer bytes than asked for,
     * so the contract admits any count from 1 up to `len` and to what is left;
     * callers may rely on nothing more.
     */
    method Read(buf: array<byte>, len: int) returns (r: ReadResult)
      requires Valid()
      modifies this, buf
      ensures Valid()
      ensures len < 0 || len > buf.Length ==> r == OutOfBounds
      ensures 0 == len <= buf.Length ==> r == Got(0)
      ensures 0 < len <= buf.Length && old(pos) == |data| ==> r == EndOfStream
      ensures 0 < len <= buf.Length && old(pos) < |data| ==> r.Got? && 1 <= r.count <= len
      ensures r.Got? ==>
        && old(pos) + r.count <= |data|
        && pos == old(pos) + r.count
        && buf[..r.count] == data[old(pos)..pos]
        && buf[r.count..] == old(buf[r.count..])
      ensures !r.Got? ==> pos == old(pos) && buf[..] == old(buf[..])
    {
      if len < 0 || len > buf.Length {
        return OutOfBounds;
      }
      if len == 0 {
        return Got(0);
      }
      if pos == |data| {
        return EndOfStream;
      }
      var n := if len < |data| - pos then len else |data| - pos;
      for i := 0 to n
        invariant pos == old(pos)
        invariant forall j :: 0 <= j < i ==> buf[j] == data[pos + j]
        invariant forall j :: i <= j < buf.Length ==> buf[j] == old(buf[j])
      {
        buf[i] := data[pos + i];
      }
      pos := pos + n;
      r := Got(n);
    }

    /** `DataInputStream.readUTF`: None where it throws (end of stream or malformed input). */
    method ReadUtf() returns (r: Option<JString>)
      requires Valid()
      modifies this
      ensures Valid()
      ensures match Wire.ReadUtf(old(Remaining()))
        case None => r.None? && pos == old(pos)
        case Some((s, k)) => r == Some(s) && pos == old(pos) + k
    {
      var d := Wire.ReadUtf(data[pos..]);
      if d.None? {
        return None;
      }
      pos := pos + d.value.1;
      r := Some(d.value.0);
    }

    /** `DataInputStream.readLong`: None where it throws EOFException. */
    method ReadLong() returns (r: Option<int64>)
      requires Valid()
      modifies this
      ensures Valid()
      ensures match Wire.ReadLong(old(Remaining()))
        case None => r.None? && pos == old(pos)
        case Some((x, k)) => r == Some(x) && pos == old(pos) + k
    {
      var d := Wire.ReadLong(data[pos..]);
      if d.None? {
        return None;
      }
      pos := pos + d.value.1;
      r := Some(d.value.0);
    }
  }

  class ByteSink {
    /** Everything written so far. */
    var data: seq<byte>

    constructor ()
      ensures data == []
    {
      data := [];
    }

    /** `write(buf, 0, len)`. */
    method Write(buf: array<byte>, len: nat)
      requires len <= buf.Length
      modifies this
      ensures data == old(data) + buf[..len]
    {
      data := data + buf[..len];
    }

    /** `DataOutputStream.writeUTF`: false where it throws, and then nothing is written. */
    method WriteUtf(s: JString) returns (ok: bool)
      modifies this
      ensures ok == Wire.WriteUtf(s).Some?
      ensures data == old(data) + (if ok then Wire.WriteUtf(s).value else [])
    {
      var bytes := Wire.WriteUtf(s);
      if bytes.None? {
        return false;
      }
      data := data + bytes.value;
      ok := true;
    }

    /** `DataOutputStream.writeLong`. */
    method WriteLong(x: int64)
      modifies this
      ensures data == old(data) + LongBytes(x)
    {
      data := data + LongBytes(x);
    }
  }
}
