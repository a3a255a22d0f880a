/** device/memory_usage_pool.cc: the pool that bounds what is allocated. A buffer is known by the
    handle of the raw data object that owns it. */
module MemoryUsagePools {
  import opened BulkQueue

  /** The bytes in use. */
  ghost function Total(sizes: map<Bulk, nat>): nat
    decreases |sizes|
  {
    if sizes.Keys == {} then 0
    else
      var b :| b in sizes.Keys;
      sizes[b] + Total(sizes - {b})
  }

  lemma {:induction false} TotalTake(sizes: map<Bulk, nat>, b: Bulk)
    requires b in sizes
    ensures Total(sizes) == sizes[b] + Total(sizes - {b})
    decreases |sizes|
  {
    var c :| c in sizes.Keys && Total(sizes) == sizes[c] + Total(sizes - {c});
    if b != c {
      TotalTake(sizes - {c}, b);
      TotalTake(sizes - {b}, c);
      assert sizes - {c} - {b} == sizes - {b} - {c};
    }
  }

  lemma TotalAdd(sizes: map<Bulk, nat>, b: Bulk, size: nat)
    requires b !in sizes
    ensures Total(sizes[b := size]) == Total(sizes) + size
  {
    TotalTake(sizes[b := size], b);
    assert sizes[b := size] - {b} == sizes;
  }

  function Part(sizes: map<Bulk, nat>, keys: set<Bulk>): map<Bulk, nat> {
    map b | b in sizes && b in keys :: sizes[b]
  }

  lemma {:induction false} TotalPart(sizes: map<Bulk, nat>, keys: set<Bulk>)
    ensures Total(Part(sizes, keys)) <= Total(sizes)
    decreases |sizes|
  {
    if b :| b in sizes && b !in keys {
      TotalTake(sizes, b);
      TotalPart(sizes - {b}, keys);
      assert Part(sizes - {b}, keys) == Part(sizes, keys);
    } else {
      assert Part(sizes, keys) == sizes;
    }
  }

  datatype Pointer = Null | Buffer(bulk: Bulk)

  class MemoryUsagePool {
    var alloced: map<Bulk, nat>
    var usage: int
    var needCall: bool
    var needAmount: int
    const limit: nat

    /** The running usage is exact and within the limit, and a recorded request for memory is one
        that cannot be met yet. */
    ghost predicate Valid()
      reads this
    {
      && usage == Total(alloced) <= limit
      && (needCall ==> limit - usage < needAmount)
    }

    constructor (limit: nat)
      ensures Valid() && alloced == map[] && this.limit == limit && !needCall
    {
      this.limit := limit;
      alloced, usage, needCall, needAmount := map[], 0, false, -1;
    }

    /** Returns the new buffer b, or Null exactly when it would exceed the limit. */
    method Alloc(b: Bulk, size: nat) returns (buffer: Pointer)
      requires Valid() && b !in alloced
      modifies this`alloced, this`usage
      ensures Valid()
      ensures buffer == if Total(old(alloced)) + size <= limit then Buffer(b) else Null
      ensures alloced == if buffer == Null then old(alloced) else old(alloced)[b := size]
    {
      if size + usage > limit {
        return Null;
      }
      TotalAdd(alloced, b, size);
      alloced := alloced[b := size];
      usage := usage + size;
      buffer := Buffer(b);
    }

    /** The recorded request is notified at the first release that meets it, once. */
    method Free(b: Bulk) returns (notified: bool, amount: int)
      requires Valid() && b in alloced
      modifies this`alloced, this`usage, this`needCall
      ensures Valid() && alloced == old(alloced) - {b}
      ensures amount == limit - Total(alloced)
      ensures notified <==> old(needCall) && needAmount <= amount
      ensures needCall <==> old(needCall) && !notified
    {
      TotalTake(alloced, b);
      var size := alloced[b];
      alloced := alloced - {b};
      usage := usage - size;
      amount := limit - usage;
      notified := needCall && needAmount <= amount;
      if notified {
        needCall := false;
      }
    }

    /** Notifies at once when enough is left, and otherwise records the request. */
    method SetFreeCallback(amount: int) returns (notified: bool, left: int)
      requires Valid()
      modifies this`needCall, this`needAmount
      ensures Valid() && left == limit - Total(alloced)
      ensures notified <==> amount <= left
      ensures if notified then needCall == old(needCall) && needAmount == old(needAmount)
              else needCall && needAmount == amount
    {
      left := limit - usage;
      notified := left >= amount;
      if !notified {
        needCall, needAmount := true, amount;
      }
    }

    method CancelCallback()
      requires Valid()
      modifies this`needCall, this`needAmount
      ensures Valid() && !needCall
    {
      needCall, needAmount := false, -1;
    }
  }
}
