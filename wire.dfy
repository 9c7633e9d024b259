/**
 * The byte-level framing of one file transfer: the metadata header that the
 * sender writes with `DataOutputStream.writeUTF` and `writeLong` and that the
 * receiver reads back with `DataInputStream.readUTF` and `readLong`.
 *
 * A JVM string is a sequence of UTF-16 code units; `writeUTF` encodes each code
 * unit on its own in "modified UTF-8" (one byte for 0x0001..0x007F, two bytes for
 * 0x0000 and 0x0080..0x07FF, three bytes for 0x0800..0xFFFF), after a 2-byte
 * big-endian count of the encoded bytes, and refuses a string whose encoding is
 * longer than 65535 bytes. `writeLong` is the 8-byte big-endian two's complement.
 */
module Wire {

  datatype Option<T> = None | Some(value: T)

  type byte = x: int | 0 <= x < 256

  /** A UTF-16 code unit: the JVM's `char`. */
  type JChar = x: int | 0 <= x < 0x1_0000

  /** A JVM `String`. */
  type JString = seq<JChar>

  const TWO_63: int := 0x8000_0000_0000_0000
  const TWO_64: int := 0x1_0000_0000_0000_0000

  /** A JVM `long`. */
  type int64 = x: int | -0x8000_0000_0000_0000 <= x < 0x8000_0000_0000_0000

  /** A JVM `int`. */
  type int32 = x: int | -0x8000_0000 <= x < 0x8000_0000

  /** Largest encoded length `writeUTF` accepts (its length prefix is an unsigned short). */
  const MAX_UTF_LENGTH: int := 65535

  //--------------------------------------------------
  // Big-endian unsigned integers
  //--------------------------------------------------

  function Pow256(n: nat): (p: nat)
    ensures p >= 1
  {
    if n == 0 then 1 else 256 * Pow256(n - 1)
  }

  /** The `n` low-order bytes of `u`, most significant first. */
  function BigEndian(u: nat, n: nat): (r: seq<byte>)
    ensures |r| == n
  {
    if n == 0 then [] else BigEndian(u / 256, n - 1) + [u % 256]
  }

  /** The unsigned value of a big-endian byte sequence. */
  function FromBigEndian(b: seq<byte>): nat
  {
    if b == [] then 0 else FromBigEndian(b[..|b| - 1]) * 256 + b[|b| - 1]
  }

  lemma Pow256Values()
    ensures Pow256(2) == 0x1_0000
    ensures Pow256(8) == TWO_64
  {
    assert Pow256(1) == 0x100;
    assert Pow256(2) == 0x1_0000;
    assert Pow256(3) == 0x100_0000;
    assert Pow256(4) == 0x1_0000_0000;
    assert Pow256(5) == 0x100_0000_0000;
    assert Pow256(6) == 0x1_0000_0000_0000;
    assert Pow256(7) == 0x100_0000_0000_0000;
  }

  /** Every big-endian sequence of n bytes denotes a value below 256^n. */
  lemma {:induction false} FromBigEndianBound(b: seq<byte>)
    ensures FromBigEndian(b) < Pow256(|b|)
  {
    if b != [] {
      var init := b[..|b| - 1];
      FromBigEndianBound(init);
      assert FromBigEndian(init) + 1 <= Pow256(|init|);
      assert (FromBigEndian(init) + 1) * 256 <= Pow256(|init|) * 256;
    }
  }

  /** Reading back n big-endian bytes returns any value that fits in them. */
  lemma {:induction false} BigEndianRoundTrip(u: nat, n: nat)
    requires u < Pow256(n)
    ensures FromBigEndian(BigEndian(u, n)) == u
  {
    if n > 0 {
      var q := u / 256;
      assert u < 256 * Pow256(n - 1);
      BigEndianRoundTrip(q, n - 1);
      var b := BigEndian(q, n - 1) + [u % 256];
      assert b[..|b| - 1] == BigEndian(q, n - 1);
    }
  }

  /** Writing back the value of a byte sequence reproduces it: no byte pattern is lost. */
  lemma {:induction false} FromBigEndianRoundTrip(b: seq<byte>)
    ensures BigEndian(FromBigEndian(b), |b|) == b
  {
    if b != [] {
      var init := b[..|b| - 1];
      var x := b[|b| - 1];
      var v := FromBigEndian(b);
      assert v == FromBigEndian(init) * 256 + x;
      assert v / 256 == FromBigEndian(init);
      assert v % 256 == x;
      FromBigEndianRoundTrip(init);
      assert b == init + [x];
    }
  }

  //--------------------------------------------------
  // writeLong / readLong
  //--------------------------------------------------

  function ToUnsigned64(x: int64): (u: nat)
    ensures u < TWO_64
  {
    if x < 0 then x + TWO_64 else x
  }

  function FromUnsigned64(u: nat): int64
    requires u < TWO_64
  {
    if u >= TWO_63 then u - TWO_64 else u
  }

  /** The 8 bytes `writeLong(x)` emits. */
  function LongBytes(x: int64): (r: seq<byte>)
    ensures |r| == 8
  {
    BigEndian(ToUnsigned64(x), 8)
  }

  /** `readLong` on a stream: the value and the number of bytes consumed, or None at end of stream. */
  function ReadLong(b: seq<byte>): (r: Option<(int64, nat)>)
    ensures r.Some? <==> |b| >= 8
    ensures r.Some? ==> r.value.1 == 8
  {
    if |b| < 8 then None
    else
      FromBigEndianBound(b[..8]);
      Pow256Values();
      Some((FromUnsigned64(FromBigEndian(b[..8])), 8))
  }

  lemma LongRoundTrip(x: int64, rest: seq<byte>)
    ensures ReadLong(LongBytes(x) + rest) == Some((x, 8))
  {
    Pow256Values();
    var b := LongBytes(x) + rest;
    assert b[..8] == LongBytes(x);
    BigEndianRoundTrip(ToUnsigned64(x), 8);
  }

  /** Every 8-byte pattern is the encoding of exactly one long. */
  lemma LongBytesOnto(b: seq<byte>)
    requires |b| == 8
    ensures ReadLong(b).Some? && LongBytes(ReadLong(b).value.0) == b
  {
    Pow256Values();
    FromBigEndianBound(b);
    FromBigEndianRoundTrip(b);
    assert b[..8] == b;
  }

  //--------------------------------------------------
  // Modified UTF-8
  //--------------------------------------------------

  /** The bytes `writeUTF` emits for one code unit. */
  function EncodeUnit(c: JChar): (r: seq<byte>)
    ensures 1 <= |r| <= 3
  {
    if 0x0001 <= c <= 0x007F then [c]
    else if c > 0x07FF then [0xE0 + c / 4096, 0x80 + (c / 64) % 64, 0x80 + c % 64]
    else [0xC0 + c / 64, 0x80 + c % 64]
  }

  /** The modified UTF-8 encoding of a string, without its length prefix. */
  function ModifiedUtf8(s: JString): (r: seq<byte>)
  {
    if s == [] then [] else EncodeUnit(s[0]) + ModifiedUtf8(s[1..])
  }

  /**
   * `readUTF`'s decoding of the code unit that starts the bytes `b`: the unit and
   * how many bytes it took, or None where `readUTF` throws UTFDataFormatException
   * (a bad leading byte, a bad continuation byte, a unit cut off by the end).
   */
  function DecodeUnit(b: seq<byte>): (r: Option<(JChar, nat)>)
    requires |b| > 0
    ensures r.Some? ==> 1 <= r.value.1 <= |b| && r.value.1 <= 3
  {
    var c: int := b[0];
    var tag := c / 16;
    if tag <= 7 then Some((c, 1))
    else if tag == 12 || tag == 13 then
      if |b| < 2 || b[1] / 64 != 2 then None
      else Some(((c % 32) * 64 + b[1] % 64, 2))
    else if tag == 14 then
      if |b| < 3 || b[1] / 64 != 2 || b[2] / 64 != 2 then None
      else
        var mid: int := b[1] % 64;
        Some(((c % 16) * 4096 + mid * 64 + b[2] % 64, 3))
    else None
  }

  /** `readUTF`'s decoding of the whole encoded body. */
  function DecodeModifiedUtf8(b: seq<byte>): Option<JString>
    decreases |b|
  {
    if b == [] then Some([])
    else match DecodeUnit(b)
      case None => None
      case Some((c, k)) =>
        match DecodeModifiedUtf8(b[k..])
        case None => None
        case Some(t) => Some([c] + t)
  }

  /** The three bytes of a unit above 0x7FF carry its top 4, middle 6 and low 6 bits. */
  lemma ThreeByteFields(c: JChar)
    requires c > 0x07FF
    ensures (0xE0 + c / 4096) / 16 == 14 && (0xE0 + c / 4096) % 16 == c / 4096
    ensures (0x80 + (c / 64) % 64) / 64 == 2 && (0x80 + (c / 64) % 64) % 64 == (c / 64) % 64
    ensures (0x80 + c % 64) / 64 == 2 && (0x80 + c % 64) % 64 == c % 64
    ensures (c / 4096) * 4096 + ((c / 64) % 64) * 64 + c % 64 == c
  {
    var q := c / 64;
    assert c == q * 64 + c % 64;
    assert q == (q / 64) * 64 + q % 64;
    assert q / 64 == c / 4096;
  }

  /** The two bytes of a unit up to 0x7FF other than 1..0x7F carry its top 5 and low 6 bits. */
  lemma TwoByteFields(c: JChar)
    requires c <= 0x07FF
    ensures (0xC0 + c / 64) / 16 == 12 || (0xC0 + c / 64) / 16 == 13
    ensures (0xC0 + c / 64) % 32 == c / 64
    ensures (0x80 + c % 64) / 64 == 2 && (0x80 + c % 64) % 64 == c % 64
    ensures (c / 64) * 64 + c % 64 == c
  {
  }

  lemma DecodeEncodedUnit(c: JChar, rest: seq<byte>)
    ensures DecodeUnit(EncodeUnit(c) + rest) == Some((c, |EncodeUnit(c)|))
  {
    var b := EncodeUnit(c) + rest;
    if 0x0001 <= c <= 0x007F {
      assert b[0] == c;
    } else if c > 0x07FF {
      assert b[0] == 0xE0 + c / 4096 && b[1] == 0x80 + (c / 64) % 64 && b[2] == 0x80 + c % 64;
      ThreeByteFields(c);
    } else {
      assert b[0] == 0xC0 + c / 64 && b[1] == 0x80 + c % 64;
      TwoByteFields(c);
    }
  }

  /** Decoding the encoding of any string gives the string back. */
  lemma {:induction false} ModifiedUtf8RoundTrip(s: JString)
    ensures DecodeModifiedUtf8(ModifiedUtf8(s)) == Some(s)
  {
    if s != [] {
      var unit := EncodeUnit(s[0]);
      var tail := ModifiedUtf8(s[1..]);
      DecodeEncodedUnit(s[0], tail);
      assert (unit + tail)[|unit|..] == tail;
      ModifiedUtf8RoundTrip(s[1..]);
      assert [s[0]] + s[1..] == s;
    }
  }

  /** Each code unit takes one to three bytes; a string of plain ASCII (no NUL) takes one byte per unit. */
  lemma {:induction false} ModifiedUtf8Length(s: JString)
    ensures |s| <= |ModifiedUtf8(s)| <= 3 * |s|
    ensures (forall i :: 0 <= i < |s| ==> 0x0001 <= s[i] <= 0x007F) ==> |ModifiedUtf8(s)| == |s|
  {
    if s != [] {
      ModifiedUtf8Length(s[1..]);
    }
  }

  //--------------------------------------------------
  // writeUTF / readUTF
  //--------------------------------------------------

  /** The bytes `writeUTF(s)` emits, or None where it throws UTFDataFormatException (nothing is written then). */
  function WriteUtf(s: JString): (r: Option<seq<byte>>)
  {
    var body := ModifiedUtf8(s);
    if |body| > MAX_UTF_LENGTH then None else Some(BigEndian(|body|, 2) + body)
  }

  /** `readUTF` on a stream: the string and the number of bytes consumed, or None where it throws. */
  function ReadUtf(b: seq<byte>): (r: Option<(JString, nat)>)
    ensures r.Some? ==> 2 <= r.value.1 <= |b|
  {
    if |b| < 2 then None
    else
      var len := FromBigEndian(b[..2]);
      if |b| < 2 + len then None
      else match DecodeModifiedUtf8(b[2..2 + len])
        case None => None
        case Some(s) => Some((s, 2 + len))
  }

  /** `writeUTF` succeeds exactly when the encoding fits its 16-bit length; any string of at most 21845 units fits. */
  lemma WriteUtfSucceeds(s: JString)
    ensures WriteUtf(s).Some? <==> |ModifiedUtf8(s)| <= MAX_UTF_LENGTH
    ensures WriteUtf(s).Some? ==> |WriteUtf(s).value| == 2 + |ModifiedUtf8(s)|
    ensures |s| <= MAX_UTF_LENGTH / 3 ==> WriteUtf(s).Some?
  {
    ModifiedUtf8Length(s);
  }

  lemma UtfRoundTrip(s: JString, rest: seq<byte>)
    requires WriteUtf(s).Some?
    ensures ReadUtf(WriteUtf(s).value + rest) == Some((s, 2 + |ModifiedUtf8(s)|))
  {
    var body := ModifiedUtf8(s);
    var b := WriteUtf(s).value + rest;
    Pow256Values();
    assert b[..2] == BigEndian(|body|, 2);
    BigEndianRoundTrip(|body|, 2);
    assert b[2..2 + |body|] == body;
    ModifiedUtf8RoundTrip(s);
  }

  //--------------------------------------------------
  // The transfer header
  //--------------------------------------------------

  datatype Header = Header(fileName: JString, fileSize: int64)

  /** What the sender writes before the file bytes, or None where `writeUTF` throws. */
  function EncodeHeader(h: Header): Option<seq<byte>>
  {
    match WriteUtf(h.fileName)
    case None => None
    case Some(name) => Some(name + LongBytes(h.fileSize))
  }

  /** What the receiver reads before the file bytes: the header and the number of bytes it took. */
  function DecodeHeader(b: seq<byte>): (r: Option<(Header, nat)>)
    ensures r.Some? ==> 10 <= r.value.1 <= |b|
  {
    match ReadUtf(b)
    case None => None
    case Some((name, k)) =>
      match ReadLong(b[k..])
      case None => None
      case Some((size, m)) => Some((Header(name, size), k + m))
  }

  /**
   * The receiver reads back exactly the name and size the sender wrote, in the
   * same order, and consumes exactly 2 + |modified UTF-8 of the name| + 8 bytes,
   * whatever follows the header on the stream.
   */
  lemma HeaderRoundTrip(h: Header, rest: seq<byte>)
    requires EncodeHeader(h).Some?
    ensures |EncodeHeader(h).value| == 2 + |ModifiedUtf8(h.fileName)| + 8
    ensures DecodeHeader(EncodeHeader(h).value + rest) == Some((h, 2 + |ModifiedUtf8(h.fileName)| + 8))
  {
    var name := WriteUtf(h.fileName).value;
    var b := EncodeHeader(h).value + rest;
    assert b == name + (LongBytes(h.fileSize) + rest);
    UtfRoundTrip(h.fileName, LongBytes(h.fileSize) + rest);
    assert |name| == 2 + |ModifiedUtf8(h.fileName)|;
    assert b[|name|..] == LongBytes(h.fileSize) + rest;
    LongRoundTrip(h.fileSize, rest);
  }
}
