/**
 * Clients of the pool and the event, showing what callers can conclude
 * from the contracts alone.
 */
module Scenarios {
  import opened Platform
  import opened MessageEvents
  import opened ObjectPools
  import opened EventRecycling

  /** A string set directly reads back as itself, and as its UTF-8 bytes. */
  method TextRoundTrip(utf8: Utf8, s: string) returns (text: Option<string>, bytes: seq<byte>)
    ensures text == Some(s)
    ensures bytes == utf8.encode(s)
  {
    var event := new MessageEventArgs();
    event.SetDataString(Text, Some(s));
    text := event.Data(utf8);
    var segment := event.RawData(utf8);
    bytes := SegmentBytes(segment);
  }

  /** Bytes set directly read back unchanged, as a view on the same array. */
  method BinaryRoundTrip(utf8: Utf8) returns (shared: bool, bytes: seq<byte>, binary: bool)
    ensures shared && binary
    ensures bytes == [0x00, 0xFF, 0x10]
  {
    var payload := new byte[3] [0x00, 0xFF, 0x10];
    var event := new MessageEventArgs();
    var _ := event.SetDataBytes(Binary, payload);
    var segment := event.RawData(utf8);
    shared := segment.View? && segment.buffer == payload;
    bytes := SegmentBytes(segment);
    binary := event.IsBinary();
  }

  /** Two events returned a then b into an empty pool are rented back a then b. */
  method RecycledInReturnOrder() returns (a: MessageEventArgs?, b: MessageEventArgs?,
                                         first: MessageEventArgs?, second: MessageEventArgs?)
    ensures a != null && b != null && a != b
    ensures first == a && second == b
  {
    var pool := new ObjectPool(0, EventPoolMaxSize);
    a := GetObject(pool);
    b := GetObject(pool);
    var bytes := new BytePool();
    var _ := ReturnObject(pool, bytes, a, false);
    var _ := ReturnObject(pool, bytes, b, false);
    first := GetObject(pool);
    second := GetObject(pool);
  }

  /**
   * A binary message filled from a stream and returned with its buffer:
   * the buffer reaches the byte pool, and the recycled event reads as empty.
   */
  method ReturnReleasesStreamBuffer(utf8: Utf8, source: array<byte>)
    returns (buffer: array?<byte>, ghost released: seq<array?<byte>>, text: Option<string>, segment: RawSegment)
    requires 0 < source.Length <= IntMax
    ensures buffer != null && buffer != source && buffer.Length >= source.Length
    ensures released == [buffer]
    ensures text == None && segment == Empty
  {
    var pool := new ObjectPool(0, EventPoolMaxSize);
    var bytes := new BytePool();
    var event := GetObject(pool);
    event.SetCode(Binary);
    event.SetBytesFromMemoryStream(Some(MemoryStream(source.Length, Some(Segment(source, 0)))), bytes);
    buffer := event.rawData;
    var _ := ReturnObject(pool, bytes, event);
    released := bytes.released;
    var again := GetObject(pool);
    text := again.Data(utf8);
    segment := again.RawData(utf8);
  }

  /**
   * A text message set directly, returned without releasing a buffer, then
   * recycled for a binary message: the pool hands back the same object, and
   * its Data still yields the old string, because ReturnObject does not
   * clear it and SetData(Opcode, byte[]) does not either.
   */
  method StaleTextAfterRecycle(utf8: Utf8) returns (reused: bool, binary: bool, text: Option<string>)
    ensures reused && binary
    ensures text == Some("hello")
  {
    var pool := new ObjectPool(0, EventPoolMaxSize);
    var bytes := new BytePool();
    var first := GetObject(pool);
    first.SetDataString(Text, Some("hello"));
    var _ := ReturnObject(pool, bytes, first, false);
    var again := GetObject(pool);
    reused := again == first;
    var payload := new byte[3];
    var _ := again.SetDataBytes(Binary, payload);
    binary := again.IsBinary();
    text := again.Data(utf8);
  }

  /**
   * Returning null is accepted by the pool before ReturnObject throws, and
   * the next Rent hands that null out.
   */
  method NullReturnPoisonsPool() returns (thrown: bool, rented: MessageEventArgs?)
    ensures thrown
    ensures rented == null
  {
    var pool := new ObjectPool(0, EventPoolMaxSize);
    var bytes := new BytePool();
    thrown := ReturnObject(pool, bytes, null);
    rented := GetObject(pool);
  }
}
