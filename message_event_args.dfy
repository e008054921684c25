/**
 * MessageEventArgs: one inbound WebSocket message, reused through a pool.
 * Its payload is either a rented byte buffer with a logical length or a
 * string set directly; read-only accessors pick which one to expose.
 */
module MessageEvents {
  import opened Platform

  /** The frame opcode (a 4-bit field, section 5.2 of RFC 6455). */
  newtype Opcode = c: int | 0 <= c < 16

  /** The value a new event starts with: neither Text nor Binary. */
  const Unset: Opcode := 0
  const Text: Opcode := 1
  const Binary: Opcode := 2

  /** What the RawData accessor hands out, an ArraySegment<byte>. */
  datatype RawSegment =
    | View(buffer: array<byte>, count: int)  // a window on the event's own buffer, no copy
    | Encoded(bytes: seq<byte>)              // a new array holding the encoded string
    | Empty                                  // default(ArraySegment<byte>)

  /** The bytes a segment lets its reader see. */
  function SegmentBytes(segment: RawSegment): (bytes: seq<byte>)
    reads if segment.View? then {segment.buffer} else {}
    requires segment.View? ==> 0 <= segment.count <= segment.buffer.Length
    ensures segment.View? ==> |bytes| == segment.count
    ensures segment.Empty? ==> bytes == []
  {
    match segment
    case View(buffer, count) => buffer[..count]
    case Encoded(bytes) => bytes
    case Empty => []
  }

  class MessageEventArgs {
    var rawData: array?<byte>
    var data: Option<string>
    var rawDataCount: int
    var opcode: Opcode

    constructor ()
      ensures Blank()
    {
      rawData := null;
      data := None;
      rawDataCount := 0;
      opcode := Unset;
    }

    /** The state `new MessageEventArgs()` produces. */
    predicate Blank()
      reads this
    {
      rawData == null && data.None? && rawDataCount == 0 && opcode == Unset
    }

    /** The logical length never claims more bytes than the buffer holds. */
    predicate Consistent()
      reads this
    {
      if rawData == null then rawDataCount == 0 else 0 <= rawDataCount <= rawData.Length
    }

    /** Data can be read without Encoding.GetString throwing. */
    predicate CanReadData()
      reads this
    {
      data.None? && rawDataCount > 0 ==> rawData != null && rawDataCount <= rawData.Length
    }

    /** RawData can be read without the ArraySegment constructor throwing. */
    predicate CanReadRawData()
      reads this
    {
      rawData != null ==> 0 <= rawDataCount <= rawData.Length
    }

    method SetCode(code: Opcode)
      modifies this
      ensures opcode == code
      ensures rawData == old(rawData) && data == old(data) && rawDataCount == old(rawDataCount)
    {
      opcode := code;
    }

    /**
     * SetData(Opcode, byte[]). The opcode and the array are stored before
     * data.Length is read, so a null array leaves both stored and throws
     * with the old count still in place.
     */
    method SetDataBytes(code: Opcode, bytes: array?<byte>) returns (thrown: bool)
      modifies this
      ensures thrown <==> bytes == null
      ensures opcode == code && rawData == bytes && data == old(data)
      ensures rawDataCount == if bytes == null then old(rawDataCount) else bytes.Length
      ensures !thrown ==> Consistent()
      ensures thrown ==> (Consistent() <==> old(rawDataCount) == 0)
    {
      opcode := code;
      rawData := bytes;
      if bytes == null {
        thrown := true;
        return;
      }
      thrown := false;
      rawDataCount := bytes.Length;
    }

    /** SetData(Opcode, string): the byte buffer and its count are left alone. */
    method SetDataString(code: Opcode, text: Option<string>)
      modifies this
      ensures opcode == code && data == text
      ensures rawData == old(rawData) && rawDataCount == old(rawDataCount)
      ensures old(Consistent()) ==> Consistent()
      ensures text.Some? ==> CanReadData() && forall utf8: Utf8 :: Data(utf8) == text
    {
      opcode := code;
      data := text;
    }

    /**
     * Copies a stream's contents into a buffer rented from the byte pool.
     * A missing or empty stream changes nothing; when the stream does not
     * expose its buffer the count is still set but nothing is copied.
     */
    method SetBytesFromMemoryStream(ms: Option<MemoryStream>, pool: BytePool)
      requires ms.Some? ==> ms.value.WellFormed()
      modifies this
      ensures ms.None? || ms.value.length == 0 ==> unchanged(this)
      ensures ms.Some? && ms.value.length > 0 ==>
                && rawData != null && fresh(rawData)
                && rawData.Length >= ms.value.length
                && rawDataCount == ms.value.length
                && Consistent()
      ensures ms.Some? && ms.value.length > 0 && ms.value.exposed.Some? ==>
                var segment := ms.value.exposed.value;
                rawData != null && rawDataCount <= rawData.Length &&
                rawData[..rawDataCount] == segment.buffer[segment.offset..segment.offset + rawDataCount]
      ensures opcode == old(opcode) && data == old(data)
    {
      if ms.None? { return; }
      var stream := ms.value;
      if stream.length == 0 { return; }
      var buffer := pool.Rent(stream.length);
      rawData := buffer;
      if stream.exposed.Some? {
        var segment := stream.exposed.value;
        BlockCopy(segment.buffer, segment.offset, buffer, 0, stream.length);
      }
      rawDataCount := stream.length;
    }

    /**
     * The message as text: the string set directly if there is one, else
     * the UTF-8 decoding of the valid bytes, else absent (never "").
     */
    function Data(utf8: Utf8): (text: Option<string>)
      reads this, rawData
      requires CanReadData()
      ensures data.Some? ==> text == data
      ensures text.None? <==> data.None? && rawDataCount <= 0
      ensures data.None? && text.Some? ==>
                rawData != null && text.value == utf8.decode(rawData[..rawDataCount])
    {
      if data.Some? then data
      else if rawDataCount > 0 then Some(utf8.decode(rawData[..rawDataCount]))
      else None
    }

    /**
     * The message as bytes: a window on the buffer when there is one (even
     * if a string is also set), else the UTF-8 encoding of the string,
     * else the default segment.
     */
    function RawData(utf8: Utf8): (segment: RawSegment)
      reads this
      requires CanReadRawData()
      ensures segment.View? <==> rawData != null
      ensures segment.View? ==> segment.buffer == rawData && segment.count == rawDataCount
      ensures segment.Encoded? <==> rawData == null && data.Some?
      ensures segment.Encoded? ==> segment.bytes == utf8.encode(data.value)
      ensures segment.Empty? <==> rawData == null && data.None?
    {
      if rawData != null then View(rawData, rawDataCount)
      else if data.Some? then Encoded(utf8.encode(data.value))
      else Empty
    }

    function IsBinary(): (binary: bool)
      reads this
      ensures binary <==> opcode == Binary
      ensures binary ==> !IsText()
    {
      opcode == Binary
    }

    function IsText(): (text: bool)
      reads this
      ensures text <==> opcode == Text
    {
      opcode == Text
    }
  }

  /**
   * With no string set, the text view is the UTF-8 decoding of exactly the
   * bytes the byte view exposes.
   */
  lemma TextViewDecodesByteView(event: MessageEventArgs, utf8: Utf8)
    requires event.Consistent() && event.data.None? && event.rawDataCount > 0
    ensures event.CanReadData() && event.CanReadRawData()
    ensures event.Data(utf8) == Some(utf8.decode(SegmentBytes(event.RawData(utf8))))
  {
  }

  /**
   * With a string set and no buffer, the byte view is the UTF-8 encoding of
   * the text view.
   */
  lemma ByteViewEncodesTextView(event: MessageEventArgs, utf8: Utf8)
    requires event.rawData == null && event.data.Some?
    ensures event.CanReadData() && event.CanReadRawData()
    ensures SegmentBytes(event.RawData(utf8)) == utf8.encode(event.Data(utf8).value)
  {
  }

  /** A fresh event exposes nothing: absent text, the default segment. */
  lemma BlankEventIsEmpty(event: MessageEventArgs, utf8: Utf8)
    requires event.Blank()
    ensures event.Consistent() && event.CanReadData() && event.CanReadRawData()
    ensures event.Data(utf8) == None && event.RawData(utf8) == Empty
    ensures !event.IsBinary() && !event.IsText()
  {
  }
}
