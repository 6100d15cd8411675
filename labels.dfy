/**
 * `parseMNISTLabel`: reads an IDX1 label buffer. The count comes from bytes
 * 4..7; the 8 header bytes are then erased from the buffer, so that label
 * `j` sits at index `j` of what remains.
 */
module LabelParsing {
  import opened Idx
  import opened Encoders

  /** The number of header bytes `loadLabels` erases. */
  const HeaderSize: nat := 8

  /**
   * What main.cpp needs of a label buffer to read it without going out of
   * bounds or overflowing an `int`: the tag bytes exist, and when they are
   * right, the count field exists and its top byte is below 128.
   */
  predicate Readable(buf: seq<Byte>)
  {
    4 <= |buf| &&
    (buf[2] == UnsignedByteTag && buf[3] == LabelRank ==> HeaderSize <= |buf| && buf[4] < 128)
  }

  /**
   * On a well-formed IDX1 file, the parsed count is the count written in the
   * header and the remaining buffer is exactly the payload.
   */
  lemma LabelFileRoundTrip(count: nat, payload: seq<Byte>)
    requires count < 0x8000_0000
    ensures Readable(LabelHeader(count) + payload)
    ensures FieldAt(LabelHeader(count) + payload, 4) == count
    ensures (LabelHeader(count) + payload)[HeaderSize..] == payload
  {
    var f := LabelHeader(count) + payload;
    LabelHeaderTags(count, payload);
    LabelHeaderFields(count, payload);
    assert f[4] == count / 0x100_0000;
  }

  class LabelParser {
    var buffer: seq<Byte>
    var numberOfItems: int

    /** The object before parsing, holding the bytes the file reader produced. */
    constructor (stream: seq<Byte>)
      ensures buffer == stream && numberOfItems == 0
    {
      buffer := stream;
      numberOfItems := 0;
    }

    /** `checkMagicNumber`: throws unless byte 2 is 8 and byte 3 is 1. */
    function CheckMagicNumber(): (r: Outcome)
      reads this
      requires 4 <= |buffer|
      ensures r.Fail? <==> buffer[2] != 8 || buffer[3] != 1
      ensures r.Fail? ==> r.error == BadMagic
    {
      CheckMagic(buffer, LabelRank)
    }

    /** `getInfo`: the count is the big-endian field at bytes 4..7. */
    method GetInfo()
      requires HeaderSize <= |buffer| && buffer[4] < 128
      modifies this`numberOfItems
      ensures numberOfItems == FieldAt(buffer, 4)
      ensures numberOfItems == (buffer[4] as int) * 0x100_0000 + (buffer[5] as int) * 0x1_0000
                             + (buffer[6] as int) * 0x100 + buffer[7]
      ensures 0 <= numberOfItems <= Int32Max
    {
      numberOfItems := BigEndian32(buffer[4], buffer[5], buffer[6], buffer[7]);
      BigEndianFitsInt(buffer[4], buffer[5], buffer[6], buffer[7]);
    }

    /** `loadLabels`: erases the 8 header bytes, keeping the rest in order. */
    method LoadLabels()
      requires HeaderSize <= |buffer|
      modifies this`buffer
      ensures buffer == old(buffer)[HeaderSize..]
      ensures |buffer| == |old(buffer)| - HeaderSize
      ensures forall j :: 0 <= j < |buffer| ==> buffer[j] == old(buffer)[j + HeaderSize]
    {
      buffer := buffer[HeaderSize..];
    }

    /**
     * The constructor of `parseMNISTLabel` after the file is read: check the
     * tags (throwing on a mismatch), read the count, drop the header.
     */
    static method Parse(stream: seq<Byte>) returns (r: Result<LabelParser>)
      requires Readable(stream)
      ensures r.Err? <==> stream[2] != 8 || stream[3] != 1
      ensures r.Err? ==> r.error == BadMagic
      ensures r.Ok? ==> fresh(r.value)
      ensures r.Ok? ==>
        var p := r.value;
        p.numberOfItems == FieldAt(stream, 4) && p.buffer == stream[HeaderSize..] &&
        forall j :: 0 <= j < p.numberOfItems && j + HeaderSize < |stream| ==>
          p.GetLabel(j) == Ok(stream[j + HeaderSize])
    {
      var p := new LabelParser(stream);
      var magic := p.CheckMagicNumber();
      if magic.Fail? {
        return Err(magic.error);
      }
      p.GetInfo();
      p.LoadLabels();
      return Ok(p);
    }

    /** `getLabel`: label `index`, or a throw when `index` is not below the count. */
    function GetLabel(index: nat): (r: Result<Byte>)
      reads this
      requires index < numberOfItems ==> index < |buffer|
      ensures r.Err? <==> index >= numberOfItems
      ensures r.Err? ==> r.error == IndexOutOfRange
      ensures r.Ok? ==> r.value == buffer[index]
    {
      if index < numberOfItems then Ok(buffer[index]) else Err(IndexOutOfRange)
    }

    /**
     * `getLabelAsVector`: the bipolar one-hot vector of label `index`. The
     * throw of `getLabel` passes through; a label of 10 or more is not an
     * error and gives ten -1 entries.
     */
    method GetLabelAsVector(index: nat) returns (r: Result<seq<int>>)
      requires index < numberOfItems ==> index < |buffer|
      ensures r.Err? <==> index >= numberOfItems
      ensures r.Err? ==> r.error == IndexOutOfRange
      ensures r.Ok? ==> r.value == OneHot(buffer[index])
      ensures r.Ok? ==> (|r.value| == ClassCount &&
        forall i :: 0 <= i < ClassCount ==> r.value[i] == (if i == buffer[index] then 1 else -1))
    {
      var got := GetLabel(index);
      if got.Err? {
        return Err(got.error);
      }
      var result: int := got.value;
      var temp: seq<int> := [];
      for i := 0 to ClassCount
        invariant temp == OneHot(result)[..i]
      {
        if i == result {
          temp := temp + [1];
        } else {
          temp := temp + [-1];
        }
      }
      return Ok(temp);
    }
  }
}
