# UnityWebSocket message events and object pool, in Dafny

This project models the recycling core of the UnityWebSocket client runtime:

- `ObjectPool<T>` is a bounded FIFO free-list. It is pre-filled with `initialCapacity` new objects. `Rent` dequeues the front object, or builds a new one when the queue is empty. `Return` enqueues only while the count is below `maxPoolSize`, and otherwise drops the object.
- `MessageEventArgs` is one inbound WebSocket message: an opcode, an optional byte buffer `_rawData` with a logical length `RawDataCount`, and an optional string `_data`. Three setters fill it. The `Data`, `RawData`, `IsBinary` and `IsText` getters choose which payload to expose. `ReturnObject` hands the event back to its pool, optionally gives its buffer back to `ArrayPool<byte>.Shared`, and drops the buffer and its count.

Files, in import order:

- `platform.dfy` (module `Platform`) holds the .NET pieces the event uses, reduced to their interfaces:
  - `byte`;
  - `Utf8`, a record of two functions (decode and encode) that the model never looks inside;
  - `BytePool` for `ArrayPool<byte>.Shared`: renting yields an array at least as long as asked, and a ghost log records every array handed back;
  - `MemoryStream`: a length plus the segment `TryGetBuffer` returns when it succeeds;
  - `BlockCopy`, a copying loop.
- `message_event_args.dfy` (module `MessageEvents`) holds the event class, its setters and getters, and lemmas relating the two views of the payload.
- `object_pool.dfy` (module `ObjectPools`) states the queue rules once, as functions on sequences (`RentStep`, `ReturnStep`, and `Run` for a whole sequence of calls). It proves the FIFO order and the size bound about them. The `ObjectPool` class holds the queue as a `seq` field, and its `Rent` and `Return` methods are proved against those functions.
- `event_recycling.dfy` (module `EventRecycling`) holds the static members `GetObject` and `ReturnObject` and the construction of the event type's own pool (32, 256). Dafny imports must not form a cycle, and these members need both the event class and the pool class, so they come after both.
- `scenarios.dfy` (module `Scenarios`) holds client methods that draw conclusions from the contracts alone: the text and binary round trips, FIFO recycling, buffer release, stale text after recycling, and a null returned to the pool.

The repository has two copies of `ObjectPool.cs`. They differ only in field names and default arguments. The model has one class with two constructors: the unnamed one carries the defaults of `Assets/…/ObjectPool.cs` (10, 100) and `PackageDefaults` carries those of `UnityWebSocket/…/ObjectPool.cs` (16, 128). `Rent`, `Return` and `PoolSize` are the same lines in both files.

Behaviour worth knowing, modelled as the code has it:

- `ReturnObject` clears `_rawData` and `RawDataCount`. It does not clear `_data` or `Opcode`, and neither setter clears the other payload field.
- So an event that carried a string and is reused for a binary message still answers `Data` with the old string (`Scenarios.StaleTextAfterRecycle`).
- Both payloads can be set at once. `RawData` then prefers the buffer and `Data` prefers the string.
- The pool accepts null. `ReturnObject(null)` enqueues the null before it throws, and a later `Rent` hands the null out (`Scenarios.NullReturnPoisonsPool`).

## Model

| member | source | states |
|---|---|---|
| `MessageEvents.MessageEventArgs.constructor` | Assets/UnityWebSocket/Scripts/Runtime/Core/MessageEventArgs.cs:16 | a new event has no buffer, no string, count 0 and the default opcode |
| `MessageEvents.MessageEventArgs.SetCode` | Assets/UnityWebSocket/Scripts/Runtime/Core/MessageEventArgs.cs:30-33 | only the opcode changes |
| `MessageEvents.MessageEventArgs.SetDataBytes` | Assets/UnityWebSocket/Scripts/Runtime/Core/MessageEventArgs.cs:35-40 | sets the opcode, stores the array and sets the count to its length, leaving the string alone; a null array is stored and then throws with the old count kept, which breaks count ≤ capacity exactly when the old count was non-zero |
| `MessageEvents.MessageEventArgs.SetDataString` | Assets/UnityWebSocket/Scripts/Runtime/Core/MessageEventArgs.cs:42-46 | sets only the opcode and the string; afterwards a non-null string reads back from `Data` under any UTF-8 codec |
| `MessageEvents.MessageEventArgs.SetBytesFromMemoryStream` | Assets/UnityWebSocket/Scripts/Runtime/Core/MessageEventArgs.cs:48-59 | a null or empty stream changes nothing; otherwise a new buffer of capacity ≥ n is installed with count n, so count ≤ capacity; when the stream exposes its buffer the first n bytes equal the stream's bytes from the segment offset; opcode and string are unchanged |
| `MessageEvents.MessageEventArgs.Data` | Assets/UnityWebSocket/Scripts/Runtime/Core/MessageEventArgs.cs:78 | a string set directly wins; otherwise the decoding of the first count bytes; absent exactly when there is no string and the count is not positive |
| `MessageEvents.MessageEventArgs.RawData` | Assets/UnityWebSocket/Scripts/Runtime/Core/MessageEventArgs.cs:86 | a view on the event's own buffer (same array, count bytes) whenever there is a buffer; else the encoding of the string; else the default segment; each case exactly when its condition holds |
| `MessageEvents.MessageEventArgs.IsBinary` | Assets/UnityWebSocket/Scripts/Runtime/Core/MessageEventArgs.cs:95 | holds iff the opcode is Binary, and then `IsText` does not hold |
| `MessageEvents.MessageEventArgs.IsText` | Assets/UnityWebSocket/Scripts/Runtime/Core/MessageEventArgs.cs:103 | holds iff the opcode is Text |
| `MessageEvents.TextViewDecodesByteView` | Assets/UnityWebSocket/Scripts/Runtime/Core/MessageEventArgs.cs:78-86 | with no string and a positive count, `Data` is the decoding of exactly the bytes `RawData` exposes |
| `MessageEvents.ByteViewEncodesTextView` | Assets/UnityWebSocket/Scripts/Runtime/Core/MessageEventArgs.cs:78-86 | with a string and no buffer, `RawData` holds the encoding of what `Data` returns |
| `MessageEvents.BlankEventIsEmpty` | Assets/UnityWebSocket/Scripts/Runtime/Core/MessageEventArgs.cs:9-16 | a new event reads as absent text, the default segment, neither binary nor text |
| `Platform.BytePool.Rent` | Assets/UnityWebSocket/Scripts/Runtime/Core/MessageEventArgs.cs:52 | the rented buffer is new and at least as long as asked |
| `Platform.BytePool.Return` | Assets/UnityWebSocket/Scripts/Runtime/Core/MessageEventArgs.cs:23 | the handed-back array is appended to the release log |
| `Platform.BlockCopy` | Assets/UnityWebSocket/Scripts/Runtime/Core/MessageEventArgs.cs:56 | the destination range equals the source range and the rest of the destination is unchanged |
| `ObjectPools.RentStep` | Assets/UnityWebSocket/Scripts/Runtime/Core/ObjectPool.cs:26-34 | a non-empty queue gives its front and keeps its tail; an empty queue stays empty and a new object is built |
| `ObjectPools.ReturnStep` | Assets/UnityWebSocket/Scripts/Runtime/Core/ObjectPool.cs:39-45 | below `maxPoolSize` the object is appended at the back; at or above it the queue is unchanged; a Return never grows the queue past `maxPoolSize` |
| `ObjectPools.Run` | UnityWebSocket/Scripts/Runtime/Core/ObjectPool.cs:26-45 | after any sequence of Rent and Return calls the queue holds at most max(its start size, `maxPoolSize`) objects |
| `ObjectPools.RentsDrainInOrder` | UnityWebSocket/Scripts/Runtime/Core/ObjectPool.cs:26-34 | renting as often as there are queued objects hands them all out, front first, and empties the queue |
| `ObjectPools.ReturnedObjectsComeBackInOrder` | Assets/UnityWebSocket/Scripts/Runtime/Core/ObjectPool.cs:26-45 | FIFO: a and b returned with room for both come back after the objects already queued, a before b |
| `ObjectPools.NewObjects` | Assets/UnityWebSocket/Scripts/Runtime/Core/ObjectPool.cs:17-20 | the fill loop yields max(0, count) new, pairwise distinct, blank objects |
| `ObjectPools.ObjectPool.constructor` | Assets/UnityWebSocket/Scripts/Runtime/Core/ObjectPool.cs:12-21 | defaults 10 and 100; the queue holds exactly max(0, `initialCapacity`) new, distinct, blank events, and the size bound holds |
| `ObjectPools.ObjectPool.PackageDefaults` | UnityWebSocket/Scripts/Runtime/Core/ObjectPool.cs:12-21 | the same with defaults 16 and 128 |
| `ObjectPools.ObjectPool.Rent` | Assets/UnityWebSocket/Scripts/Runtime/Core/ObjectPool.cs:26-34 | follows `RentStep`: the front object and the tail, or a new blank event with the queue left empty; the size drops by one or stays 0; the size bound is kept; the result is non-null whenever no null is queued |
| `ObjectPools.ObjectPool.Return` | Assets/UnityWebSocket/Scripts/Runtime/Core/ObjectPool.cs:39-45 | follows `ReturnStep`, null included; the size grows by one exactly when it was below `maxPoolSize`; the size bound is kept; the queue holds a null afterwards iff it did before or a null was just queued |
| `ObjectPools.ObjectPool.PoolSize` | Assets/UnityWebSocket/Scripts/Runtime/Core/ObjectPool.cs:50 | the queue length, within the size bound |
| `EventRecycling.NewEventPool` | Assets/UnityWebSocket/Scripts/Runtime/Core/MessageEventArgs.cs:14 | the event type's pool starts with 32 new blank events and a maximum of 256 |
| `EventRecycling.GetObject` | Assets/UnityWebSocket/Scripts/Runtime/Core/MessageEventArgs.cs:13 | the pool's Rent rule; never null unless a null was queued |
| `EventRecycling.ReturnObject` | Assets/UnityWebSocket/Scripts/Runtime/Core/MessageEventArgs.cs:18-28 | the pool's Return rule is applied to the event, null included; a null event then throws without reaching the byte pool; otherwise its buffer is logged as released iff `forceReturn`, and afterwards there is no buffer and count 0, with string and opcode unchanged |
| `Scenarios.TextRoundTrip` | Assets/UnityWebSocket/Scripts/Runtime/Core/MessageEventArgs.cs:42-86 | a string set directly reads back as itself from `Data` and as its encoding from `RawData` |
| `Scenarios.BinaryRoundTrip` | Assets/UnityWebSocket/Scripts/Runtime/Core/MessageEventArgs.cs:35-86 | bytes 00 FF 10 set directly read back unchanged from `RawData`, as a view on the same array, and the event is binary |
| `Scenarios.RecycledInReturnOrder` | Assets/UnityWebSocket/Scripts/Runtime/Core/MessageEventArgs.cs:13-28 | two distinct events returned a then b into an empty pool are rented back a then b |
| `Scenarios.ReturnReleasesStreamBuffer` | Assets/UnityWebSocket/Scripts/Runtime/Core/MessageEventArgs.cs:18-59 | the buffer filled from a stream is the one handed to the byte pool on return, and the recycled event reads as absent text and the default segment |
| `Scenarios.StaleTextAfterRecycle` | Assets/UnityWebSocket/Scripts/Runtime/Core/MessageEventArgs.cs:18-46 | an event that carried "hello", returned and reused for a binary message, is the same object and still answers `Data` with "hello" |
| `Scenarios.NullReturnPoisonsPool` | Assets/UnityWebSocket/Scripts/Runtime/Core/MessageEventArgs.cs:18-28 | returning null throws, yet the null is queued and the next rent hands it out |

## Left out

- Concurrency: `ConcurrentQueue` is modelled as a single-threaded `seq`. The check-then-enqueue race in `Return` can overshoot `maxPoolSize` under contention, and the model does not capture this.
- Generic `T`: Dafny cannot build a value of a type parameter, so the pool class holds `MessageEventArgs`, its only instantiation here. The queue rules themselves (`RentStep`, `ReturnStep`, `Run` and their lemmas) are generic.
- The static pool field: the event type's pool is passed to `GetObject` and `ReturnObject` as a parameter. `NewEventPool` builds it with the source's sizes.
- UTF-8 (`Encoding.UTF8`, RFC 3629): decoding and encoding are uninterpreted parameters. Replacement characters for invalid bytes are library behaviour.
- `Platform.BytePool.Rent`: every rent yields a new array. The bucketed recycling of `ArrayPool<byte>.Shared` is not modelled, nor are the stale contents of a recycled array when `TryGetBuffer` fails.
- `EventRecycling.ReturnObject`: with `forceReturn` and no buffer, .NET's `ArrayPool.Return` rejects the null array. The model logs the null and carries on.
- `MemoryStream`: modelled as its length plus an optional exposed segment. The stream's own API and its growth are left out. A stream length never exceeds `Int32.MaxValue`, so the `(int)` casts lose nothing.
- `Platform.BlockCopy`: requires distinct arrays. Overlapping copies within one array are not modelled; the only caller copies into a newly rented buffer.
- `Opcode`: `Opcode.cs` is not part of this model. The opcode is a 4-bit value with Text = 1 and Binary = 2 (section 5.2 of RFC 6455), and 0 on a new event.
- `MessageEvents.MessageEventArgs.Data`: requires `CanReadData()`, the exact condition under which `Encoding.UTF8.GetString` does not throw. The throwing path is left out. The model's own operations can reach it: filling from a stream and then calling `SetDataBytes` with a null array leaves no string, no buffer and a positive count. In that state the source's `Data` throws, and the model does not represent the exception.
- `MessageEvents.MessageEventArgs.RawData`: requires `CanReadRawData()`, the exact condition under which the `ArraySegment` constructor does not throw. The throwing path is left out. The modelled operations always keep the count within the buffer; only a write to the public `RawDataCount` from outside them could break this.
- `RawDataCount` is a public field in the source. Writes to it from outside the listed operations are not modelled.
- The `EventArgs` base class carries no state and is left out.
