/**
 * ObjectPool<T>: a bounded FIFO free-list. The queue rules are stated once
 * as functions on sequences; the class that holds the queue is proved
 * against them.
 */
module ObjectPools {
  import opened MessageEvents

  function Max(a: int, b: int): int
  {
    if a < b then b else a
  }

  /** What Rent hands back: the front of the queue, or an object built on a miss. */
  datatype Taken<T> = Pooled(obj: T) | Created

  /** TryDequeue, falling back to construction when the queue is empty. */
  function RentStep<T>(queue: seq<T>): (r: (seq<T>, Taken<T>))
    ensures queue == [] ==> r == ([], Created)
    ensures queue != [] ==> r.1 == Pooled(queue[0]) && [queue[0]] + r.0 == queue
  {
    if queue == [] then ([], Created) else (queue[1..], Pooled(queue[0]))
  }

  /** Enqueue only while the queue is shorter than maxPoolSize; otherwise drop obj. */
  function ReturnStep<T>(queue: seq<T>, maxPoolSize: int, obj: T): (r: seq<T>)
    ensures |queue| < maxPoolSize ==> |r| == |queue| + 1 && r[..|queue|] == queue && r[|queue|] == obj
    ensures |queue| >= maxPoolSize ==> r == queue
    ensures |r| > |queue| ==> |r| <= maxPoolSize
  {
    if |queue| < maxPoolSize then queue + [obj] else queue
  }

  datatype PoolOp<T> = RentOp | ReturnOp(obj: T)

  /**
   * Runs a sequence of Rent and Return calls from the given queue: the final
   * queue and what each Rent handed back, in order. However the calls are
   * interleaved, the queue never outgrows max(start size, maxPoolSize).
   */
  function Run<T>(queue: seq<T>, maxPoolSize: int, ops: seq<PoolOp<T>>): (r: (seq<T>, seq<Taken<T>>))
    ensures |r.0| <= Max(|queue|, maxPoolSize)
    decreases |ops|
  {
    if ops == [] then (queue, [])
    else match ops[0]
      case RentOp =>
        var (rest, taken) := RentStep(queue);
        var (final, outs) := Run(rest, maxPoolSize, ops[1..]);
        (final, [taken] + outs)
      case ReturnOp(obj) =>
        Run(ReturnStep(queue, maxPoolSize, obj), maxPoolSize, ops[1..])
  }

  function Rents<T>(n: nat): (ops: seq<PoolOp<T>>)
  {
    seq(n, _ => RentOp)
  }

  function AllPooled<T>(queue: seq<T>): (outs: seq<Taken<T>>)
  {
    seq(|queue|, i requires 0 <= i < |queue| => Pooled(queue[i]))
  }

  /** Renting as many times as there are queued objects hands them out front first. */
  lemma {:induction false} RentsDrainInOrder<T>(queue: seq<T>, maxPoolSize: int)
    ensures Run(queue, maxPoolSize, Rents(|queue|)) == ([], AllPooled(queue))
    decreases |queue|
  {
    if queue != [] {
      var ops: seq<PoolOp<T>> := Rents(|queue|);
      assert ops != [] && ops[0] == RentOp && ops[1..] == Rents(|queue[1..]|);
      RentsDrainInOrder(queue[1..], maxPoolSize);
      assert RentStep(queue) == (queue[1..], Pooled(queue[0]));
      assert Run(queue, maxPoolSize, ops) == ([], [Pooled(queue[0])] + AllPooled(queue[1..]));
      assert AllPooled(queue) == [Pooled(queue[0])] + AllPooled(queue[1..]);
    } else {
      assert Rents<T>(0) == [] && AllPooled(queue) == [];
    }
  }

  /**
   * FIFO: objects returned a then b with room for both come back behind the
   * objects already queued, a before b, and the queue ends empty.
   */
  lemma ReturnedObjectsComeBackInOrder<T>(queue: seq<T>, maxPoolSize: int, a: T, b: T)
    requires |queue| + 2 <= maxPoolSize
    ensures Run(queue, maxPoolSize, [ReturnOp(a), ReturnOp(b)] + Rents(|queue| + 2))
            == ([], AllPooled(queue) + [Pooled(a), Pooled(b)])
  {
    var ops := [ReturnOp(a), ReturnOp(b)] + Rents(|queue| + 2);
    assert ops[0] == ReturnOp(a) && ops[1..][0] == ReturnOp(b) && ops[1..][1..] == Rents(|queue| + 2);
    var full := queue + [a, b];
    assert ReturnStep(ReturnStep(queue, maxPoolSize, a), maxPoolSize, b) == full;
    RentsDrainInOrder(full, maxPoolSize);
    assert AllPooled(full) == AllPooled(queue) + [Pooled(a), Pooled(b)];
  }

  /** Fills the pool at construction: count new, distinct, blank objects. */
  method NewObjects(count: int) returns (objects: seq<MessageEventArgs>)
    ensures |objects| == Max(0, count)
    ensures forall i :: 0 <= i < |objects| ==> fresh(objects[i]) && objects[i].Blank()
    ensures forall i, j :: 0 <= i < j < |objects| ==> objects[i] != objects[j]
  {
    objects := [];
    var i := 0;
    while i < count
      invariant |objects| == i <= Max(0, count)
      invariant forall k :: 0 <= k < |objects| ==> fresh(objects[k]) && objects[k].Blank()
      invariant forall k, l :: 0 <= k < l < |objects| ==> objects[k] != objects[l]
    {
      var created := new MessageEventArgs();
      objects := objects + [created];
      i := i + 1;
    }
  }

  /**
   * ObjectPool<MessageEventArgs>. The constructor with defaults 10/100 is
   * the copy under Assets/, PackageDefaults (16/128) the copy under
   * UnityWebSocket/; Rent, Return and PoolSize are the same in both.
   * Return accepts null, as the source's does, and a null once queued is
   * later handed out by Rent.
   */
  class ObjectPool {
    var queue: seq<MessageEventArgs?>
    const maxPoolSize: int
    ghost const initialSize: nat

    /** The queue never holds more than its start size or maxPoolSize. */
    ghost predicate Valid()
      reads this
    {
      |queue| <= Max(initialSize, maxPoolSize)
    }

    constructor (initialCapacity: int := 10, maxPoolSize: int := 100)
      ensures Valid() && this.maxPoolSize == maxPoolSize && null !in queue
      ensures |queue| == initialSize == Max(0, initialCapacity)
      ensures forall i :: 0 <= i < |queue| ==> queue[i] != null && fresh(queue[i]) && queue[i].Blank()
      ensures forall i, j :: 0 <= i < j < |queue| ==> queue[i] != queue[j]
    {
      var objects := NewObjects(initialCapacity);
      this.maxPoolSize := maxPoolSize;
      initialSize := |objects|;
      queue := objects;
    }

    constructor PackageDefaults(initialCapacity: int := 16, maxPoolSize: int := 128)
      ensures Valid() && this.maxPoolSize == maxPoolSize && null !in queue
      ensures |queue| == initialSize == Max(0, initialCapacity)
      ensures forall i :: 0 <= i < |queue| ==> queue[i] != null && fresh(queue[i]) && queue[i].Blank()
      ensures forall i, j :: 0 <= i < j < |queue| ==> queue[i] != queue[j]
    {
      var objects := NewObjects(initialCapacity);
      this.maxPoolSize := maxPoolSize;
      initialSize := |objects|;
      queue := objects;
    }

    /**
     * Hands out the front object, or a new blank one when the queue is
     * empty. It hands out null only if a null was queued.
     */
    method Rent() returns (obj: MessageEventArgs?)
      requires Valid()
      modifies this
      ensures Valid()
      ensures old(queue) != [] ==> RentStep(old(queue)) == (queue, Pooled(obj))
      ensures old(queue) == [] ==> RentStep(old(queue)) == (queue, Created) && obj != null && fresh(obj) && obj.Blank()
      ensures |queue| == Max(0, |old(queue)| - 1)
      ensures null !in old(queue) ==> obj != null && null !in queue
    {
      if queue != [] {
        obj := queue[0];
        queue := queue[1..];
        return;
      }
      obj := new MessageEventArgs();
    }

    /** Queues obj for reuse while there is room; otherwise drops it. */
    method Return(obj: MessageEventArgs?)
      requires Valid()
      modifies this
      ensures Valid()
      ensures queue == ReturnStep(old(queue), maxPoolSize, obj)
      ensures null in queue <==> null in old(queue) || (obj == null && |old(queue)| < maxPoolSize)
      ensures |queue| == if |old(queue)| < maxPoolSize then |old(queue)| + 1 else |old(queue)|
    {
      if |queue| < maxPoolSize {
        queue := queue + [obj];
      }
    }

    function PoolSize(): (size: int)
      reads this
      ensures size == |queue|
      ensures Valid() ==> 0 <= size <= Max(initialSize, maxPoolSize)
    {
      |queue|
    }
  }
}
