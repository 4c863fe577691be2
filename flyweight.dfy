/**
  A flyweight: a movable view over a byte buffer. Every message of the system
  is a flyweight whose fields live at fixed offsets from the view's `offset`,
  so binding a view never copies bytes. A view bound for writing reads and
  writes the same buffer; a view bound for reading has no write buffer.
*/
module Flyweight {
  import opened Bytes

  class Flyweight {
    var writeBuffer: array?<byte>
    var readBuffer: array?<byte>
    var offset: int

    /** A view starts unbound. */
    constructor ()
      ensures writeBuffer == null && readBuffer == null && offset == 0
    {
      writeBuffer := null;
      readBuffer := null;
      offset := 0;
    }

    /** A view that can write always reads what it writes. */
    predicate Valid()
      reads this
    {
      writeBuffer != null ==> writeBuffer == readBuffer
    }

    method WrapForWrite(buffer: array<byte>, offset: int)
      modifies this
      ensures Valid()
      ensures readBuffer == buffer && writeBuffer == buffer && this.offset == offset
    {
      this.readBuffer := buffer;
      this.writeBuffer := buffer;
      this.offset := offset;
    }

    method WrapForRead(buffer: array<byte>, offset: int)
      modifies this
      ensures Valid()
      ensures readBuffer == buffer && writeBuffer == null && this.offset == offset
    {
      this.readBuffer := buffer;
      this.writeBuffer := null;
      this.offset := offset;
    }

    method GetReadBuffer() returns (buffer: array?<byte>)
      ensures buffer == readBuffer
    {
      buffer := readBuffer;
    }

    method GetOffset() returns (o: int)
      ensures o == offset
    {
      o := offset;
    }
  }

  /** Binds `f` for writing to a fresh zero-filled buffer of `bufferSize` bytes at offset 0. */
  method AllocateMemoryForFlyweight(f: Flyweight, bufferSize: nat)
    modifies f
    ensures f.Valid() && f.writeBuffer != null && fresh(f.writeBuffer)
    ensures f.writeBuffer.Length == bufferSize && f.offset == 0
    ensures forall i | 0 <= i < bufferSize :: f.writeBuffer[i] == 0
  {
    var buffer := new byte[bufferSize](_ => 0);
    f.WrapForWrite(buffer, 0);
  }

  /** The `width` bytes at `rel` past the view's offset lie inside its read buffer. */
  predicate CanRead(f: Flyweight, rel: int, width: nat)
    reads f
  {
    f.readBuffer != null && 0 <= f.offset + rel && f.offset + rel + width <= f.readBuffer.Length
  }

  /** The view is bound for writing and the `width` bytes at `rel` lie inside its buffer. */
  predicate CanWrite(f: Flyweight, rel: int, width: nat)
    reads f
  {
    f.Valid() && f.writeBuffer != null && 0 <= f.offset + rel && f.offset + rel + width <= f.writeBuffer.Length
  }

  function ReadInt(f: Flyweight, rel: int): int32
    reads f, f.readBuffer
    requires CanRead(f, rel, SIZE_OF_INT)
  {
    GetInt(f.readBuffer[..], f.offset + rel)
  }

  function ReadLong(f: Flyweight, rel: int): int64
    reads f, f.readBuffer
    requires CanRead(f, rel, SIZE_OF_LONG)
  {
    GetLong(f.readBuffer[..], f.offset + rel)
  }

  function ReadBytes(f: Flyweight, rel: int, width: nat): (r: seq<byte>)
    reads f, f.readBuffer
    requires CanRead(f, rel, width)
    ensures |r| == width
  {
    f.readBuffer[f.offset + rel..f.offset + rel + width]
  }

  /** Agrona's `putBytes`: copies `bytes` to `rel` past the view's offset; nothing else changes. */
  method WriteBytes(f: Flyweight, rel: int, bytes: seq<byte>)
    requires CanWrite(f, rel, |bytes|)
    modifies f.writeBuffer
    ensures f.writeBuffer[..] == Splice(old(f.writeBuffer[..]), f.offset + rel, bytes)
  {
    var buffer, pos := f.writeBuffer, f.offset + rel;
    forall i | 0 <= i < |bytes| {
      buffer[pos + i] := bytes[i];
    }
    SpliceAt(old(buffer[..]), pos, bytes);
    assert buffer[..] == Splice(old(buffer[..]), pos, bytes);
  }

  method WriteInt(f: Flyweight, rel: int, v: int32)
    requires CanWrite(f, rel, SIZE_OF_INT)
    modifies f.writeBuffer
    ensures f.writeBuffer[..] == Splice(old(f.writeBuffer[..]), f.offset + rel, EncodeInt(v))
  {
    WriteBytes(f, rel, EncodeInt(v));
  }

  method WriteLong(f: Flyweight, rel: int, v: int64)
    requires CanWrite(f, rel, SIZE_OF_LONG)
    modifies f.writeBuffer
    ensures f.writeBuffer[..] == Splice(old(f.writeBuffer[..]), f.offset + rel, EncodeLong(v))
  {
    WriteBytes(f, rel, EncodeLong(v));
  }
}
