/**
 * The static pool-facing members of MessageEventArgs: GetObject and
 * ReturnObject. The static pool and ArrayPool<byte>.Shared are passed in
 * explicitly.
 */
module EventRecycling {
  import opened Platform
  import opened MessageEvents
  import opened ObjectPools

  /** The pool size the event type's own static pool is built with. */
  const EventPoolInitialCapacity: int := 32
  const EventPoolMaxSize: int := 256

  /** The event type's static pool, new ObjectPool<MessageEventArgs>(32, 256). */
  method NewEventPool() returns (pool: ObjectPool)
    ensures fresh(pool) && pool.Valid()
    ensures pool.maxPoolSize == EventPoolMaxSize && |pool.queue| == EventPoolInitialCapacity
    ensures forall i :: 0 <= i < |pool.queue| ==> pool.queue[i] != null && fresh(pool.queue[i]) && pool.queue[i].Blank()
  {
    pool := new ObjectPool(EventPoolInitialCapacity, EventPoolMaxSize);
  }

  method GetObject(pool: ObjectPool) returns (obj: MessageEventArgs?)
    requires pool.Valid()
    modifies pool
    ensures pool.Valid()
    ensures old(pool.queue) != [] ==> RentStep(old(pool.queue)) == (pool.queue, Pooled(obj))
    ensures old(pool.queue) == [] ==> pool.queue == [] && obj != null && fresh(obj) && obj.Blank()
    ensures null !in old(pool.queue) ==> obj != null && null !in pool.queue
  {
    obj := pool.Rent();
  }

  /**
   * Puts obj back under the pool's Return rule, hands its buffer to the byte
   * pool when forceReturn holds, then drops the buffer and its count. The
   * string payload and the opcode stay as they were. A null obj is queued
   * first and then throws on the first field access, before the byte pool
   * is reached.
   */
  method ReturnObject(pool: ObjectPool, bytes: BytePool, obj: MessageEventArgs?, forceReturn: bool := true)
    returns (thrown: bool)
    requires pool.Valid()
    modifies pool, bytes, obj
    ensures pool.Valid()
    ensures pool.queue == ReturnStep(old(pool.queue), pool.maxPoolSize, obj)
    ensures thrown <==> obj == null
    ensures obj == null ==> bytes.released == old(bytes.released)
    ensures obj != null ==>
              && bytes.released == old(bytes.released) + (if forceReturn then [old(obj.rawData)] else [])
              && obj.rawData == null && obj.rawDataCount == 0 && obj.Consistent()
              && obj.data == old(obj.data) && obj.opcode == old(obj.opcode)
  {
    pool.Return(obj);
    if obj == null {
      thrown := true;
      return;
    }
    thrown := false;
    if forceReturn {
      bytes.Return(obj.rawData);
    }
    obj.rawData := null;
    obj.rawDataCount := 0;
  }
}
