/**
 * `parseMNISTImages`: reads an IDX3 image buffer into `numberOfItems`
 * records of `height * width` pixels each.
 *
 * Two behaviours of main.cpp are kept exactly as written. The item count is
 * fixed at 60000 instead of being read from bytes 4..7, and record `i` is cut
 * from offset `12 + height * width * i`, although the IDX layout puts the
 * first pixel at offset 16. So every record is shifted four bytes early.
 * When an image has at least 4 pixels (MNIST has 784), record 0 starts with
 * the four bytes of the width field, and each later record starts with the
 * last four pixels of the image before it (see `RecordsOfImageFile` and
 * `RecordStraddles`).
 */
module ImageParsing {
  import opened Idx
  import opened Encoders

  /** The offset main.cpp cuts the first record from. */
  const RecordBase: nat := 12

  /**
   * Where record `i` starts when every record is `size` bytes long: the base
   * offset plus `i` whole records (equal to `12 + size * i`, see `OffsetIs`).
   */
  function Offset(size: nat, i: nat): nat
  {
    if i == 0 then RecordBase else Offset(size, i - 1) + size
  }

  /** The offset of record `i` is the `12 + height * width * i` of main.cpp. */
  lemma {:induction false} OffsetIs(size: nat, i: nat)
    ensures Offset(size, i) == RecordBase + size * i
  {
    if i > 0 {
      OffsetIs(size, i - 1);
      assert size * i == size * (i - 1) + size;
    }
  }

  /** Later records start no earlier. */
  lemma {:induction false} OffsetMonotone(size: nat, i: nat, j: nat)
    requires i <= j
    ensures Offset(size, i) <= Offset(size, j)
  {
    if i < j {
      OffsetMonotone(size, i, j - 1);
    }
  }

  /** The bytes of record `i` when every record is `size` bytes long. */
  function RecordAt(buf: seq<Byte>, size: nat, i: nat): seq<Byte>
    requires Offset(size, i) + size <= |buf|
  {
    buf[Offset(size, i) .. Offset(size, i) + size]
  }

  /** The first `n` records of `buf`, in file order. */
  function Records(buf: seq<Byte>, size: nat, n: nat): seq<Image>
    requires n == 0 || Offset(size, n) <= |buf|
  {
    if n == 0 then [] else Records(buf, size, n - 1) + [Image(RecordAt(buf, size, n - 1))]
  }

  /**
   * There are exactly `n` records, each `size` bytes long, record `i` being
   * the `size` bytes from `Offset(size, i)`, that is from `12 + size * i`, on.
   */
  lemma RecordsSpec(buf: seq<Byte>, size: nat, n: nat)
    requires n == 0 || Offset(size, n) <= |buf|
    ensures |Records(buf, size, n)| == n
    ensures forall i {:trigger Records(buf, size, n)[i]} :: 0 <= i < n ==>
      Offset(size, i) + size <= |buf| &&
      Records(buf, size, n)[i] == Image(buf[Offset(size, i) .. Offset(size, i) + size]) &&
      |Records(buf, size, n)[i].bytes| == size
  {
    RecordsLength(buf, size, n);
    forall i {:trigger Records(buf, size, n)[i]} | 0 <= i < n
      ensures Offset(size, i) + size <= |buf|
      ensures Records(buf, size, n)[i] == Image(RecordAt(buf, size, i))
    {
      RecordsAt(buf, size, n, i);
    }
  }

  lemma {:induction false} RecordsLength(buf: seq<Byte>, size: nat, n: nat)
    requires n == 0 || Offset(size, n) <= |buf|
    ensures |Records(buf, size, n)| == n
  {
    if n > 0 {
      RecordsLength(buf, size, n - 1);
    }
  }

  lemma {:induction false} RecordsAt(buf: seq<Byte>, size: nat, n: nat, i: nat)
    requires i < n && Offset(size, n) <= |buf|
    ensures Offset(size, i) + size <= |buf|
    ensures |Records(buf, size, n)| == n
    ensures Records(buf, size, n)[i] == Image(RecordAt(buf, size, i))
  {
    RecordsLength(buf, size, n);
    if i < n - 1 {
      RecordsAt(buf, size, n - 1, i);
    }
  }

  /** Cutting one more record appends the bytes that follow the previous one. */
  lemma RecordsSnoc(buf: seq<Byte>, size: nat, i: nat, n: nat)
    requires i < n && Offset(size, n) <= |buf|
    ensures Offset(size, i + 1) <= |buf|
    ensures Records(buf, size, i + 1)
         == Records(buf, size, i) + [Image(buf[Offset(size, i) .. Offset(size, i) + size])]
  {
    OffsetMonotone(size, i + 1, n);
  }

  /**
   * On a well-formed IDX3 file with a 16-byte header, record `i` as main.cpp
   * cuts it is the window `size * i .. size * i + size` of the payload with the
   * four width bytes put in front: every record is shifted four bytes early,
   * and when an image has at least 4 pixels only record 0 starts with the
   * width bytes.
   */
  lemma RecordsOfImageFile(count: nat, rows: nat, columns: nat, size: nat, payload: seq<Byte>, i: nat)
    requires count < 0x1_0000_0000 && rows < 0x1_0000_0000 && columns < 0x1_0000_0000
    requires size == rows * columns
    requires RecordBase + size * i + size <= 16 + |payload|
    ensures Offset(size, i) + size <= 16 + |payload|
    ensures RecordAt(ImageHeader(count, rows, columns) + payload, size, i)
         == (EncodeBigEndian32(columns) + payload)[size * i .. size * i + size]
  {
    OffsetIs(size, i);
    WidthThenPayload(count, rows, columns, payload);
    SliceOfSuffix(ImageHeader(count, rows, columns) + payload, EncodeBigEndian32(columns) + payload,
                  RecordBase, size * i, size * i + size);
  }

  /**
   * On a well-formed IDX3 file whose images have at least 4 pixels (MNIST has
   * 784), record `j + 1` as main.cpp cuts it is the last four pixels of image
   * `j` followed by the first `size - 4` pixels of image `j + 1`.
   */
  lemma RecordStraddles(count: nat, rows: nat, columns: nat, size: nat, payload: seq<Byte>, j: nat)
    requires count < 0x1_0000_0000 && rows < 0x1_0000_0000 && columns < 0x1_0000_0000
    requires size == rows * columns && 4 <= size
    requires size * (j + 1) + size <= |payload|
    ensures Offset(size, j + 1) + size <= 16 + |payload|
    ensures RecordAt(ImageHeader(count, rows, columns) + payload, size, j + 1)
         == payload[size * (j + 1) - 4 .. size * (j + 1)] + payload[size * (j + 1) .. size * (j + 1) + size - 4]
  {
    RecordsOfImageFile(count, rows, columns, size, payload, j + 1);
    AtLeastOnce(size, j + 1);
    ShiftedWindow(EncodeBigEndian32(columns), payload, size * (j + 1), size);
  }

  lemma AtLeastOnce(size: nat, n: nat)
    requires 1 <= n
    ensures size <= size * n
  {
  }

  lemma ShiftedWindow(e: seq<Byte>, p: seq<Byte>, lo: nat, len: nat)
    requires |e| == 4 && 4 <= lo && 4 <= len && lo + len <= 4 + |p|
    ensures (e + p)[lo .. lo + len] == p[lo - 4 .. lo] + p[lo .. lo + len - 4]
  {
    var window, parts := (e + p)[lo .. lo + len], p[lo - 4 .. lo] + p[lo .. lo + len - 4];
    forall k | 0 <= k < len
      ensures window[k] == parts[k]
    {
      assert (e + p)[lo + k] == p[lo + k - 4];
    }
  }

  /** What follows byte 12 of a well-formed image file: the width bytes, then the payload. */
  lemma WidthThenPayload(count: nat, rows: nat, columns: nat, payload: seq<Byte>)
    requires count < 0x1_0000_0000 && rows < 0x1_0000_0000 && columns < 0x1_0000_0000
    ensures (ImageHeader(count, rows, columns) + payload)[RecordBase..] == EncodeBigEndian32(columns) + payload
  {
  }

  lemma SliceOfSuffix(s: seq<Byte>, t: seq<Byte>, base: nat, lo: nat, hi: nat)
    requires lo <= hi && base + hi <= |s| && s[base..] == t
    ensures s[base + lo .. base + hi] == t[lo..hi]
  {
    forall k | 0 <= k < hi - lo
      ensures s[base + lo .. base + hi][k] == t[lo..hi][k]
    {
      assert t[lo + k] == s[base + lo + k];
    }
  }

  /**
   * What main.cpp needs of an image buffer to read it without going out of
   * bounds or overflowing an `int`: the tag bytes exist, and when they are
   * right, the header exists, its height and width fields are non-negative
   * `int`s and the 60000 records fit in the buffer.
   */
  predicate Readable(buf: seq<Byte>)
  {
    4 <= |buf| &&
    (buf[2] == UnsignedByteTag && buf[3] == ImageRank ==>
      16 <= |buf| && buf[8] < 128 && buf[12] < 128 &&
      SlicesFit(|buf|, FieldAt(buf, 8), FieldAt(buf, 12), ImageCount))
  }

  /**
   * The `n` records of `height * width` bytes lie inside a buffer of length
   * `len`, and the offsets main.cpp computes stay within `int`.
   */
  predicate SlicesFit(len: nat, height: int, width: int, n: int)
  {
    0 <= height * width &&
    (n > 0 ==>
      Offset(height * width, n) <= len &&
      height * width <= Int32Max &&
      RecordBase + height * width * (n - 1) <= Int32Max)
  }

  class ImageParser {
    var buffer: seq<Byte>
    var saves: seq<Image>
    var numberOfItems: int
    var height: int
    var width: int

    /** The object before parsing, holding the bytes the file reader produced. */
    constructor (stream: seq<Byte>)
      ensures buffer == stream && saves == []
      ensures numberOfItems == 0 && height == 0 && width == 0
    {
      buffer := stream;
      saves := [];
      numberOfItems, height, width := 0, 0, 0;
    }

    /** The state a successful parse leaves: 60000 records of `height * width` pixels. */
    ghost predicate Parsed()
      reads this
    {
      numberOfItems == ImageCount && |saves| == ImageCount &&
      forall i :: 0 <= i < |saves| ==> |saves[i].bytes| == height * width
    }

    /** `checkMagicNumber`: throws unless byte 2 is 8 and byte 3 is 3. */
    function CheckMagicNumber(): (r: Outcome)
      reads this
      requires 4 <= |buffer|
      ensures r.Fail? <==> buffer[2] != 8 || buffer[3] != 3
      ensures r.Fail? ==> r.error == BadMagic
    {
      CheckMagic(buffer, ImageRank)
    }

    /**
     * `getInfo`: the count becomes 60000 whatever the header says; height and
     * width are the big-endian fields at bytes 8..11 and 12..15.
     */
    method GetInfo()
      requires 16 <= |buffer| && buffer[8] < 128 && buffer[12] < 128
      modifies this`numberOfItems, this`height, this`width
      ensures numberOfItems == ImageCount
      ensures height == FieldAt(buffer, 8) && width == FieldAt(buffer, 12)
      ensures 0 <= height <= Int32Max && 0 <= width <= Int32Max
    {
      numberOfItems := ImageCount;
      height := BigEndian32(buffer[8], buffer[9], buffer[10], buffer[11]);
      width := BigEndian32(buffer[12], buffer[13], buffer[14], buffer[15]);
      BigEndianFitsInt(buffer[8], buffer[9], buffer[10], buffer[11]);
      BigEndianFitsInt(buffer[12], buffer[13], buffer[14], buffer[15]);
    }

    /** `loadImages`: appends `numberOfItems` records cut from the buffer. */
    method LoadImages()
      requires SlicesFit(|buffer|, height, width, numberOfItems)
      modifies this`saves
      ensures saves == old(saves) + Records(buffer, height * width, if numberOfItems < 0 then 0 else numberOfItems)
    {
      var size: nat := height * width;
      var n: nat := if numberOfItems < 0 then 0 else numberOfItems;
      var i := 0;
      while i < numberOfItems
        invariant 0 <= i <= n
        invariant i == 0 || Offset(size, i) <= |buffer|
        invariant saves == old(saves) + Records(buffer, size, i)
      {
        var index := RecordBase + size * i;
        OffsetIs(size, i);
        RecordsSnoc(buffer, size, i, n);
        saves := saves + [Image(buffer[index .. index + size])];
        i := i + 1;
      }
    }

    /**
     * The constructor of `parseMNISTImages` after the file is read: check the
     * tags (throwing on a mismatch), read the header, cut the records.
     */
    static method Parse(stream: seq<Byte>) returns (r: Result<ImageParser>)
      requires Readable(stream)
      ensures r.Err? <==> stream[2] != 8 || stream[3] != 3
      ensures r.Err? ==> r.error == BadMagic
      ensures r.Ok? ==> fresh(r.value)
      ensures r.Ok? ==>
        var p := r.value;
        p.buffer == stream && p.numberOfItems == ImageCount &&
        p.height == FieldAt(stream, 8) && p.width == FieldAt(stream, 12) &&
        p.saves == Records(stream, p.height * p.width, ImageCount) &&
        p.Parsed()
    {
      var p := new ImageParser(stream);
      var magic := p.CheckMagicNumber();
      if magic.Fail? {
        return Err(magic.error);
      }
      p.GetInfo();
      p.LoadImages();
      RecordsSpec(stream, p.height * p.width, ImageCount);
      return Ok(p);
    }

    /** `getImage`: record `index`, or a throw when `index` is not below the count. */
    function GetImage(index: nat): (r: Result<Image>)
      reads this
      requires index < numberOfItems ==> index < |saves|
      ensures r.Err? <==> index >= numberOfItems
      ensures r.Err? ==> r.error == IndexOutOfRange
      ensures r.Ok? ==> r.value == saves[index]
    {
      if index < numberOfItems then Ok(saves[index]) else Err(IndexOutOfRange)
    }

    /** `getDataSetInputSize`: the length of every record, height times width. */
    function GetDataSetInputSize(): (n: int)
      reads this
      ensures n == height * width
      ensures Parsed() ==> forall i :: 0 <= i < |saves| ==> |saves[i].bytes| == n
    {
      height * width
    }
  }
}
