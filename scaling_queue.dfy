/**
 * ScalingQueue (app/library/src/main/java/com/lb/async_task_ex/ScalingQueue.kt): a FIFO task queue
 * that refuses work whenever every pool thread is busy or already has queued work waiting, so
 * that the owning pool grows a new thread instead of queueing.
 */
module ScalingQueues {
  import opened Wrappers

  /** Integer.MAX_VALUE, the capacity of a queue built without one. */
  const IntegerMaxValue: int := 0x7fff_ffff

  /**
   * The owning executor, reduced to the two counts the queue reads from it. Everything else
   * it does (starting threads, counting busy ones) happens outside this model.
   */
  class PoolCounts {
    var activeCount: int
    var poolSize: int

    constructor (activeCount: int, poolSize: int)
      ensures this.activeCount == activeCount && this.poolSize == poolSize
    {
      this.activeCount := activeCount;
      this.poolSize := poolSize;
    }
  }

  /** offer dereferences the executor with `!!`: before setThreadPoolExecutor it throws. */
  datatype OfferError = NullExecutor

  /**
   * The admission rule of offer: busy threads plus queued tasks must stay below the number
   * of threads in the pool.
   */
  predicate Admits(activeCount: int, queued: int, poolSize: int) {
    activeCount + queued < poolSize
  }

  class ScalingQueue<T> {
    var items: seq<T>
    const capacity: int
    var executor: PoolCounts?

    ghost predicate Valid()
      reads this
    {
      0 < capacity && |items| <= capacity
    }

    /** The default constructor: capacity Integer.MAX_VALUE, no executor yet. */
    constructor ()
      ensures Valid() && capacity == IntegerMaxValue && items == [] && executor == null
    {
      items := [];
      capacity := IntegerMaxValue;
      executor := null;
    }

    /**
     * The constructor with a fixed capacity. LinkedBlockingQueue rejects a capacity below 1
     * with IllegalArgumentException, which is this constructor's precondition here.
     */
    constructor WithCapacity(capacity: int)
      requires capacity > 0
      ensures Valid() && this.capacity == capacity && items == [] && executor == null
    {
      items := [];
      this.capacity := capacity;
      executor := null;
    }

    /** setThreadPoolExecutor: every later offer reads this executor's counts. */
    method SetThreadPoolExecutor(executor: PoolCounts)
      modifies this`executor
      ensures this.executor == executor
    {
      this.executor := executor;
    }

    /**
     * offer: fails on a missing executor; refuses, leaving the queue as it was, when
     * activeCount + size >= poolSize or the queue is full; otherwise appends `o` at the tail.
     */
    method Offer(o: T) returns (r: Result<bool, OfferError>)
      requires Valid()
      modifies this`items
      ensures Valid()
      ensures executor == null <==> r == Err(NullExecutor)
      ensures executor != null ==>
                r == Ok(Admits(executor.activeCount, |old(items)|, executor.poolSize) && |old(items)| < capacity)
      ensures items == if r == Ok(true) then old(items) + [o] else old(items)
      ensures r == Ok(true) ==> executor.activeCount + |items| <= executor.poolSize && |items| <= capacity
    {
      if executor == null {
        return Err(NullExecutor);
      }
      var allWorkingThreads := executor.activeCount + |items|;
      if allWorkingThreads < executor.poolSize {
        // LinkedBlockingQueue.offer: false when full, otherwise enqueue at the tail
        if |items| < capacity {
          items := items + [o];
          return Ok(true);
        }
      }
      return Ok(false);
    }
  }
}
