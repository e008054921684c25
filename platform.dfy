/**
 * The .NET library pieces the message event leans on, reduced to what the
 * event relies on: bytes, UTF-8 conversion, the shared byte-array pool,
 * the buffer a MemoryStream exposes, and Buffer.BlockCopy.
 */
module Platform {

  newtype byte = b: int | 0 <= b < 256

  datatype Option<T> = None | Some(value: T)

  /** Int32.MaxValue: a MemoryStream never grows past it. */
  const IntMax: int := 0x7FFF_FFFF

  /**
   * Encoding.UTF8, as two functions the model never looks inside:
   * GetString and GetBytes.
   */
  datatype Utf8 = Utf8(decode: seq<byte> -> string, encode: string -> seq<byte>)

  /** The ArraySegment that MemoryStream.TryGetBuffer hands out on success. */
  datatype Segment = Segment(buffer: array<byte>, offset: int)

  /**
   * A MemoryStream as the event sees it: its Length, and the segment that
   * TryGetBuffer returns when the stream lets its buffer be seen.
   */
  datatype MemoryStream = MemoryStream(length: int, exposed: Option<Segment>)
  {
    /** What a .NET MemoryStream guarantees about its length and buffer. */
    predicate WellFormed()
    {
      && 0 <= length <= IntMax
      && (exposed.Some? ==>
            0 <= exposed.value.offset && exposed.value.offset + length <= exposed.value.buffer.Length)
    }
  }

  /**
   * ArrayPool<byte>.Shared. Renting yields an array at least as long as
   * asked; every array handed back is recorded in a ghost log.
   */
  class BytePool {
    ghost var released: seq<array?<byte>>

    constructor ()
      ensures released == []
    {
      released := [];
    }

    method Rent(minimumLength: int) returns (buffer: array<byte>)
      requires 0 <= minimumLength
      ensures fresh(buffer) && buffer.Length >= minimumLength
    {
      buffer := new byte[minimumLength];
    }

    method Return(buffer: array?<byte>)
      modifies this
      ensures released == old(released) + [buffer]
    {
      released := released + [buffer];
    }
  }

  /**
   * Buffer.BlockCopy on byte arrays: count bytes of src from srcOffset
   * land in dst from dstOffset, and the rest of dst stays as it was.
   */
  method BlockCopy(src: array<byte>, srcOffset: int, dst: array<byte>, dstOffset: int, count: int)
    requires src != dst
    requires 0 <= srcOffset && 0 <= dstOffset && 0 <= count
    requires srcOffset + count <= src.Length && dstOffset + count <= dst.Length
    modifies dst
    ensures dst[dstOffset..dstOffset + count] == src[srcOffset..srcOffset + count]
    ensures dst[..dstOffset] == old(dst[..dstOffset])
    ensures dst[dstOffset + count..] == old(dst[dstOffset + count..])
  {
    var i := 0;
    while i < count
      invariant 0 <= i <= count
      invariant dst[dstOffset..dstOffset + i] == src[srcOffset..srcOffset + i]
      invariant dst[..dstOffset] == old(dst[..dstOffset])
      invariant dst[dstOffset + i..] == old(dst[dstOffset + i..])
    {
      dst[dstOffset + i] := src[srcOffset + i];
      i := i + 1;
    }
  }
}
