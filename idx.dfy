/**
 * The IDX container format as main.cpp reads it: raw bytes, the two
 * magic tag bytes, big-endian 32-bit header fields and the error values
 * that stand for the program's `throw 1`.
 */
module Idx {

  /** One element of the `std::vector<uint8_t>` buffers. */
  type Byte = b: int | 0 <= b < 256

  /** Byte 2 of every IDX header: the "unsigned byte" element type. */
  const UnsignedByteTag: Byte := 8
  /** Byte 3 of an image file: three dimensions (count, rows, columns). */
  const ImageRank: Byte := 3
  /** Byte 3 of a label file: one dimension (count). */
  const LabelRank: Byte := 1

  /** The item count the image parser uses instead of reading it (main.cpp:45). */
  const ImageCount: nat := 60000

  /** Largest value of the C++ `int` the parsers compute with. */
  const Int32Max: int := 0x7FFF_FFFF

  /** The reasons main.cpp throws: a wrong tag byte, or an index past the item count. */
  datatype Error = BadMagic | IndexOutOfRange

  /** Either nothing happened, or the operation threw. */
  datatype Outcome = Pass | Fail(error: Error)

  /** A value, or the error that was thrown instead. */
  datatype Result<T> = Ok(value: T) | Err(error: Error)

  /** The number whose big-endian 32-bit spelling is b0 b1 b2 b3. */
  function BigEndian32(b0: Byte, b1: Byte, b2: Byte, b3: Byte): nat
  {
    b0 * 0x100_0000 + b1 * 0x1_0000 + b2 * 0x100 + b3
  }

  /**
   * main.cpp assembles a field as `(b0 << 24) | (b1 << 16) | (b2 << 8) | b3` on a
   * signed `int`. The four shifted bytes occupy disjoint bits, so the OR is the
   * sum BigEndian32 computes; the value fits a non-negative `int` exactly when
   * the top byte is below 128 (beyond that the left shift overflows).
   */
  lemma BigEndianFitsInt(b0: Byte, b1: Byte, b2: Byte, b3: Byte)
    ensures BigEndian32(b0, b1, b2, b3) < 0x1_0000_0000
    ensures BigEndian32(b0, b1, b2, b3) <= Int32Max <==> b0 < 128
  {
  }

  /** The big-endian field of four bytes starting at `off`. */
  function FieldAt(buf: seq<Byte>, off: nat): nat
    requires off + 4 <= |buf|
  {
    BigEndian32(buf[off], buf[off + 1], buf[off + 2], buf[off + 3])
  }

  /** The four bytes that spell `n` most significant first. */
  function EncodeBigEndian32(n: nat): (s: seq<Byte>)
    requires n < 0x1_0000_0000
    ensures |s| == 4
  {
    [n / 0x100_0000, (n / 0x1_0000) % 0x100, (n / 0x100) % 0x100, n % 0x100]
  }

  /** Reading back what EncodeBigEndian32 wrote gives the number again. */
  lemma DecodeEncode(n: nat)
    requires n < 0x1_0000_0000
    ensures FieldAt(EncodeBigEndian32(n), 0) == n
  {
    var s := EncodeBigEndian32(n);
    var q1, q2 := n / 0x100, n / 0x1_0000;
    assert n == q1 * 0x100 + n % 0x100;
    assert q1 == (q1 / 0x100) * 0x100 + q1 % 0x100;
    assert q1 / 0x100 == q2;
    assert q2 == (q2 / 0x100) * 0x100 + q2 % 0x100;
    assert q2 / 0x100 == n / 0x100_0000;
    assert s[1] == q2 % 0x100 && s[2] == q1 % 0x100;
  }

  /** Encoding a field that was read gives back the same four bytes. */
  lemma EncodeDecode(buf: seq<Byte>, off: nat)
    requires off + 4 <= |buf|
    ensures FieldAt(buf, off) < 0x1_0000_0000
    ensures EncodeBigEndian32(FieldAt(buf, off)) == buf[off..off + 4]
  {
    var b0: int, b1: int, b2: int := buf[off], buf[off + 1], buf[off + 2];
    var n := FieldAt(buf, off);
    assert n / 0x100 == b0 * 0x1_0000 + b1 * 0x100 + b2;
    assert n / 0x1_0000 == b0 * 0x100 + b1;
    assert n / 0x100_0000 == b0;
  }

  /**
   * The tag check shared by both parsers: it throws exactly when byte 2 is not
   * the unsigned-byte tag or byte 3 is not the expected rank.
   */
  function CheckMagic(buf: seq<Byte>, rank: Byte): (r: Outcome)
    requires 4 <= |buf|
    ensures r.Fail? <==> buf[2] != UnsignedByteTag || buf[3] != rank
    ensures r.Fail? ==> r.error == BadMagic
  {
    if buf[2] == UnsignedByteTag && buf[3] == rank then Pass else Fail(BadMagic)
  }

  /** The 16-byte header of a well-formed image file (count, rows, columns). */
  function ImageHeader(count: nat, rows: nat, columns: nat): (h: seq<Byte>)
    requires count < 0x1_0000_0000 && rows < 0x1_0000_0000 && columns < 0x1_0000_0000
    ensures |h| == 16
  {
    [0, 0, UnsignedByteTag, ImageRank] + EncodeBigEndian32(count)
      + EncodeBigEndian32(rows) + EncodeBigEndian32(columns)
  }

  /** The 8-byte header of a well-formed label file. */
  function LabelHeader(count: nat): (h: seq<Byte>)
    requires count < 0x1_0000_0000
    ensures |h| == 8
  {
    [0, 0, UnsignedByteTag, LabelRank] + EncodeBigEndian32(count)
  }

  /** A well-formed image header passes the image tag check and fails the label one. */
  lemma ImageHeaderTags(count: nat, rows: nat, columns: nat, payload: seq<Byte>)
    requires count < 0x1_0000_0000 && rows < 0x1_0000_0000 && columns < 0x1_0000_0000
    ensures CheckMagic(ImageHeader(count, rows, columns) + payload, ImageRank) == Pass
    ensures CheckMagic(ImageHeader(count, rows, columns) + payload, LabelRank) == Fail(BadMagic)
  {
    var f := ImageHeader(count, rows, columns) + payload;
    assert f[2] == UnsignedByteTag && f[3] == ImageRank;
  }

  /** A well-formed label header passes the label tag check and fails the image one. */
  lemma LabelHeaderTags(count: nat, payload: seq<Byte>)
    requires count < 0x1_0000_0000
    ensures CheckMagic(LabelHeader(count) + payload, LabelRank) == Pass
    ensures CheckMagic(LabelHeader(count) + payload, ImageRank) == Fail(BadMagic)
  {
    var f := LabelHeader(count) + payload;
    assert f[2] == UnsignedByteTag && f[3] == LabelRank;
  }

  /** The fields of a well-formed image header read back as written. */
  lemma ImageHeaderFields(count: nat, rows: nat, columns: nat, payload: seq<Byte>)
    requires count < 0x1_0000_0000 && rows < 0x1_0000_0000 && columns < 0x1_0000_0000
    ensures FieldAt(ImageHeader(count, rows, columns) + payload, 4) == count
    ensures FieldAt(ImageHeader(count, rows, columns) + payload, 8) == rows
    ensures FieldAt(ImageHeader(count, rows, columns) + payload, 12) == columns
  {
    var f := ImageHeader(count, rows, columns) + payload;
    FieldShift(f, 4, EncodeBigEndian32(count));
    FieldShift(f, 8, EncodeBigEndian32(rows));
    FieldShift(f, 12, EncodeBigEndian32(columns));
    DecodeEncode(count);
    DecodeEncode(rows);
    DecodeEncode(columns);
  }

  /** The count field of a well-formed label header reads back as written. */
  lemma LabelHeaderFields(count: nat, payload: seq<Byte>)
    requires count < 0x1_0000_0000
    ensures FieldAt(LabelHeader(count) + payload, 4) == count
  {
    var f := LabelHeader(count) + payload;
    FieldShift(f, 4, EncodeBigEndian32(count));
    DecodeEncode(count);
  }

  /** A field read at `off` depends only on the four bytes found there. */
  lemma FieldShift(buf: seq<Byte>, off: nat, word: seq<Byte>)
    requires off + 4 <= |buf| && |word| == 4 && buf[off..off + 4] == word
    ensures FieldAt(buf, off) == FieldAt(word, 0)
  {
    assert buf[off] == word[0] && buf[off + 1] == word[1];
    assert buf[off + 2] == word[2] && buf[off + 3] == word[3];
  }
}
