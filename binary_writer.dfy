/** The binary writer the exporters append to. Its byte order is a
    parameter: the exporters never set it, and the writer's default lives
    outside this model. */
module BinaryWriter {
  import opened Bytes

  class Writer {
    const order: ByteOrder
    var data: seq<u8>

    constructor (order: ByteOrder)
      ensures this.order == order && data == []
    {
      this.order := order;
      data := [];
    }

    method WriteU8(x: u8)
      modifies this
      ensures data == old(data) + [x]
    {
      data := data + [x];
    }

    method WriteI8(x: i8)
      modifies this
      ensures data == old(data) + [I8Bits(x)]
    {
      data := data + [I8Bits(x)];
    }

    method WriteU16(x: u16)
      modifies this
      ensures data == old(data) + Bytes16(x, order)
    {
      data := data + Bytes16(x, order);
    }

    method WriteI16(x: i16)
      modifies this
      ensures data == old(data) + Bytes16(I16Bits(x), order)
    {
      data := data + Bytes16(I16Bits(x), order);
    }

    method WriteU32(x: u32)
      modifies this
      ensures data == old(data) + Bytes32(x, order)
    {
      data := data + Bytes32(x, order);
    }

    method WriteI32(x: i32)
      modifies this
      ensures data == old(data) + Bytes32(I32Bits(x), order)
    {
      data := data + Bytes32(I32Bits(x), order);
    }

    /** `Write(float)`: the raw 32-bit pattern, in the writer's byte order. */
    method WriteFloat(bits: u32)
      modifies this
      ensures data == old(data) + Bytes32(bits, order)
    {
      data := data + Bytes32(bits, order);
    }

    /** `Write(const char*, size)` and any other run of raw bytes. */
    method WriteBytes(b: seq<u8>)
      modifies this
      ensures data == old(data) + b
    {
      data := data + b;
    }
  }
}
