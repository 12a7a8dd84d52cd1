/** The big-endian binary reader every parser runs over a decompressed
    segment: a byte sequence and a cursor. A read that would pass the end
    of the segment throws; here it returns `Err(ReadPastEnd)`. */
module BinaryReader {
  import opened Results
  import opened Bytes

  /** The byte a one-byte read at `p` returns. */
  function ByteAt(s: seq<u8>, p: nat): (r: Result<u8>)
    ensures r.Ok? <==> p < |s|
    ensures r.Ok? ==> r.value == s[p]
    ensures r.Err? ==> r.error == ReadPastEnd
  {
    if p < |s| then Ok(s[p]) else Err(ReadPastEnd)
  }

  /** A read's outcome paired with where the cursor stands after it. */
  function Positioned<T>(r: Result<T>, pos: nat): Result<(T, nat)> {
    match r
    case Ok(v) => Ok((v, pos))
    case Err(e) => Err(e)
  }

  class Reader {
    const data: seq<u8>
    var pos: nat

    constructor (data: seq<u8>)
      ensures this.data == data && pos == 0
    {
      this.data := data;
      pos := 0;
    }

    /** `Seek(p, SeekOffsetType::Start)`. */
    method Seek(p: nat)
      modifies this
      ensures pos == p
    {
      pos := p;
    }

    method ReadUByte() returns (r: Result<u8>)
      modifies this
      ensures old(pos) + 1 <= |data| ==> r == Ok(data[old(pos)]) && pos == old(pos) + 1
      ensures old(pos) + 1 > |data| ==> r == Err(ReadPastEnd)
    {
      if pos + 1 > |data| {
        return Err(ReadPastEnd);
      }
      r := Ok(data[pos]);
      pos := pos + 1;
    }

    method ReadInt8() returns (r: Result<i8>)
      modifies this
      ensures old(pos) + 1 <= |data| ==> r == Ok(I8OfBits(data[old(pos)])) && pos == old(pos) + 1
      ensures old(pos) + 1 > |data| ==> r == Err(ReadPastEnd)
    {
      if pos + 1 > |data| {
        return Err(ReadPastEnd);
      }
      r := Ok(I8OfBits(data[pos]));
      pos := pos + 1;
    }

    method ReadUInt16() returns (r: Result<u16>)
      modifies this
      ensures old(pos) + 2 <= |data| ==> r == Ok(Be16At(data, old(pos))) && pos == old(pos) + 2
      ensures old(pos) + 2 > |data| ==> r == Err(ReadPastEnd)
    {
      if pos + 2 > |data| {
        return Err(ReadPastEnd);
      }
      r := Ok(Be16At(data, pos));
      pos := pos + 2;
    }

    method ReadInt16() returns (r: Result<i16>)
      modifies this
      ensures old(pos) + 2 <= |data| ==> r == Ok(I16OfBits(Be16At(data, old(pos)))) && pos == old(pos) + 2
      ensures old(pos) + 2 > |data| ==> r == Err(ReadPastEnd)
    {
      if pos + 2 > |data| {
        return Err(ReadPastEnd);
      }
      r := Ok(I16OfBits(Be16At(data, pos)));
      pos := pos + 2;
    }

    method ReadUInt32() returns (r: Result<u32>)
      modifies this
      ensures old(pos) + 4 <= |data| ==> r == Ok(Be32At(data, old(pos))) && pos == old(pos) + 4
      ensures old(pos) + 4 > |data| ==> r == Err(ReadPastEnd)
    {
      if pos + 4 > |data| {
        return Err(ReadPastEnd);
      }
      r := Ok(Be32At(data, pos));
      pos := pos + 4;
    }

    method ReadInt32() returns (r: Result<i32>)
      modifies this
      ensures old(pos) + 4 <= |data| ==> r == Ok(I32OfBits(Be32At(data, old(pos)))) && pos == old(pos) + 4
      ensures old(pos) + 4 > |data| ==> r == Err(ReadPastEnd)
    {
      if pos + 4 > |data| {
        return Err(ReadPastEnd);
      }
      r := Ok(I32OfBits(Be32At(data, pos)));
      pos := pos + 4;
    }

    /** `ReadFloat`: a float is kept as its raw 32-bit pattern. */
    method ReadFloat() returns (r: Result<u32>)
      modifies this
      ensures old(pos) + 4 <= |data| ==> r == Ok(Be32At(data, old(pos))) && pos == old(pos) + 4
      ensures old(pos) + 4 > |data| ==> r == Err(ReadPastEnd)
    {
      r := ReadUInt32();
    }

    /** `ReadString(n)`: the next `n` bytes. */
    method ReadString(n: nat) returns (r: Result<seq<u8>>)
      modifies this
      ensures old(pos) + n <= |data| ==> r == Ok(data[old(pos)..old(pos) + n]) && pos == old(pos) + n
      ensures old(pos) + n > |data| ==> r == Err(ReadPastEnd)
    {
      if pos + n > |data| {
        return Err(ReadPastEnd);
      }
      r := Ok(data[pos..pos + n]);
      pos := pos + n;
    }
  }
}
