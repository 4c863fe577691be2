/**
  The fixed-size pool the client gateway hands its service clients out of.
  Instance i is created by the factory for id i; the ids of the instances not
  handed out wait in a FIFO queue.
*/
module FixSizeObjectPool {
  import opened Errors

  class FixSizeObjectPool<T> {
    var instances: seq<T>
    var freeInstances: seq<int>

    /** Every queued id names an instance. */
    predicate Valid()
      reads this
    {
      forall k | 0 <= k < |freeInstances| :: 0 <= freeInstances[k] < |instances|
    }

    /** The free queue holds each id at most once. */
    predicate Unique()
      reads this
    {
      forall j, k | 0 <= j < k < |freeInstances| :: freeInstances[j] != freeInstances[k]
    }

    constructor (size: nat, instanceFactory: int -> T)
      ensures Valid() && Unique()
      ensures instances == seq(size, i => instanceFactory(i))
      ensures freeInstances == seq(size, i => i)
    {
      instances := [];
      freeInstances := [];
      new;
      var i := 0;
      while i < size
        invariant 0 <= i <= size
        invariant instances == seq(i, j => instanceFactory(j))
        invariant freeInstances == seq(i, j => j)
      {
        instances := instances + [instanceFactory(i)];
        freeInstances := freeInstances + [i];
        i := i + 1;
      }
    }

    method CheckIdBounds(id: int) returns (r: Status)
      ensures r == Done <==> 0 <= id < |instances|
      ensures r != Done ==> r == Thrown(IllegalArgument)
    {
      if id < 0 || id >= |instances| {
        return Thrown(IllegalArgument);
      }
      return Done;
    }

    /** The instance created for `id`, or IllegalArgumentException outside [0, size). */
    method GetInstance(id: int) returns (r: Result<T>)
      ensures 0 <= id < |instances| ==> r == Ok(instances[id])
      ensures !(0 <= id < |instances|) ==> r == Err(IllegalArgument)
    {
      var checked := CheckIdBounds(id);
      if checked != Done {
        return Err(checked.error);
      }
      return Ok(instances[id]);
    }

    /** Pops the oldest free id and hands out its instance; nothing when none is free. */
    method AcquireInstance() returns (r: Option<T>)
      requires Valid()
      modifies this
      ensures Valid() && instances == old(instances)
      ensures old(freeInstances) == [] ==> r == None && freeInstances == []
      ensures old(freeInstances) != [] ==>
        r == Some(instances[old(freeInstances)[0]]) && freeInstances == old(freeInstances)[1..]
      ensures old(Unique()) ==> Unique() && (old(freeInstances) != [] ==> old(freeInstances)[0] !in freeInstances)
    {
      if freeInstances == [] {
        return None;
      }
      var freeInstanceIndex := freeInstances[0];
      freeInstances := freeInstances[1..];
      r := Some(instances[freeInstanceIndex]);
    }

    /** The release as the source has it: it checks the id and never re-queues it. */
    method FreeInstanceAsWritten(instanceId: int) returns (r: Status)
      ensures r == Done <==> 0 <= instanceId < |instances|
      ensures r != Done ==> r == Thrown(IllegalArgument)
    {
      r := CheckIdBounds(instanceId);
    }

    /** The release the pool's callers rely on: a valid id goes back to the end of the free queue. */
    method FreeInstance(instanceId: int) returns (r: Status)
      requires Valid()
      modifies this
      ensures Valid() && instances == old(instances)
      ensures r == Done <==> 0 <= instanceId < |instances|
      ensures r == Done ==> freeInstances == old(freeInstances) + [instanceId]
      ensures r != Done ==> r == Thrown(IllegalArgument) && freeInstances == old(freeInstances)
      ensures old(Unique()) && instanceId !in old(freeInstances) ==> Unique()
    {
      r := CheckIdBounds(instanceId);
      if r == Done {
        freeInstances := freeInstances + [instanceId];
      }
    }
  }

  /**
    A pool of `size` instances hands out every instance once, in id order,
    and then nothing.
  */
  method AcquireAll<T>(size: nat, instanceFactory: int -> T) returns (acquired: seq<T>, extra: Option<T>)
    ensures acquired == seq(size, i => instanceFactory(i))
    ensures extra == None
  {
    var pool := new FixSizeObjectPool(size, instanceFactory);
    acquired := [];
    var i := 0;
    while i < size
      invariant 0 <= i <= size && pool.Valid()
      invariant pool.instances == seq(size, j => instanceFactory(j))
      invariant pool.freeInstances == seq(size - i, j => i + j)
      invariant acquired == seq(i, j => instanceFactory(j))
    {
      var r := pool.AcquireInstance();
      acquired := acquired + [r.value];
      i := i + 1;
    }
    extra := pool.AcquireInstance();
  }

  /** With the re-queueing release, a freed instance is the next one acquired. */
  method ReuseAfterFree<T>(instanceFactory: int -> T) returns (first: Option<T>, second: Option<T>)
    ensures first == Some(instanceFactory(0)) && second == Some(instanceFactory(0))
  {
    var pool := new FixSizeObjectPool(1, instanceFactory);
    first := pool.AcquireInstance();
    var freed := pool.FreeInstance(0);
    second := pool.AcquireInstance();
  }

  /** With the release as written, a one-instance pool stays exhausted after the free. */
  method ReuseAfterFreeAsWritten<T>(instanceFactory: int -> T) returns (first: Option<T>, second: Option<T>)
    ensures first == Some(instanceFactory(0)) && second == None
  {
    var pool := new FixSizeObjectPool(1, instanceFactory);
    first := pool.AcquireInstance();
    var freed := pool.FreeInstanceAsWritten(0);
    second := pool.AcquireInstance();
  }
}
