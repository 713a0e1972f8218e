/** utils/ObjectPool.hpp: a pool of reusable objects. `Get` hands out an
    owning handle, taken from the free queue when it holds something and
    freshly constructed otherwise; releasing the handle runs its onDelete
    hooks and puts the object back on the queue; the destructor hands what
    is queued to the deleter. The lock-free queue is modelled as a bag (a
    set of distinct object identities): no order is promised. */
module ObjectPool {

  /** Identity of a pooled object; the n-th constructed object is n. */
  type Obj = nat

  /** Identity of an onDelete hook passed to Get. */
  type Hook = nat

  /** What releasing a handle does, in order. */
  datatype Event = HookRan(hook: Hook, obj: Obj) | Enqueued(obj: Obj)

  /** The hook calls made, in order, when a handle with `hooks` is released. */
  function HookEvents(hooks: seq<Hook>, obj: Obj): (evs: seq<Event>)
    ensures |evs| == |hooks|
    ensures forall i :: 0 <= i < |hooks| ==> evs[i] == HookRan(hooks[i], obj)
  {
    if hooks == [] then [] else [HookRan(hooks[0], obj)] + HookEvents(hooks[1..], obj)
  }

  class Pool {
    /** d_queue: the objects waiting to be reused. */
    var free: set<Obj>
    /** d_allocated: how many objects were ever constructed. */
    var allocCount: nat
    /** The handles given out and not yet released, with their hooks. */
    var outstanding: map<Obj, seq<Hook>>
    /** Everything release closures did, in order. */
    var log: seq<Event>
    /** The objects handed to d_deleter, in order. */
    var deleterCalls: seq<Obj>

    /** Every constructed object is either queued or held by exactly one
        handle. */
    ghost predicate Valid()
      reads this
    {
      && free !! outstanding.Keys
      && (forall o :: o in free ==> o < allocCount)
      && (forall o :: o in outstanding ==> o < allocCount)
      && allocCount == |free| + |outstanding|
    }

    constructor ()
      ensures Valid()
      ensures free == {} && allocCount == 0 && outstanding == map[]
      ensures log == [] && deleterCalls == []
    {
      free, allocCount, outstanding := {}, 0, map[];
      log, deleterCalls := [], [];
    }

    /** PoolSize: the number of objects ever constructed. */
    function PoolSize(): (n: nat)
      reads this
      requires Valid()
      ensures n == |free| + |outstanding|
    {
      allocCount
    }

    /** Get(onDelete...): a queued object when there is one (nothing is
        constructed), otherwise a newly constructed one (d_allocated + 1). */
    method Get(hooks: seq<Hook>) returns (obj: Obj, constructed: bool)
      requires Valid()
      modifies this
      ensures Valid()
      ensures constructed <==> old(free) == {}
      ensures !constructed ==> obj in old(free) && free == old(free) - {obj}
                               && allocCount == old(allocCount)
      ensures constructed ==> obj == old(allocCount)
                              && free == old(free) && allocCount == old(allocCount) + 1
      ensures obj !in old(outstanding) && outstanding == old(outstanding)[obj := hooks]
      ensures log == old(log) && deleterCalls == old(deleterCalls)
    {
      if free != {} {
        obj :| obj in free;
        free := free - {obj};
        constructed := false;
      } else {
        obj := allocCount;
        allocCount := allocCount + 1;
        constructed := true;
      }
      outstanding := outstanding[obj := hooks];
    }

    /** The release closure of a handle: run its onDelete hooks in order,
        then enqueue the object. The deleter is never called here. */
    method Release(obj: Obj)
      requires Valid() && obj in outstanding
      modifies this
      ensures Valid()
      ensures log == old(log) + HookEvents(old(outstanding[obj]), obj) + [Enqueued(obj)]
      ensures free == old(free) + {obj} && outstanding == old(outstanding) - {obj}
      ensures allocCount == old(allocCount) && deleterCalls == old(deleterCalls)
    {
      log := log + HookEvents(outstanding[obj], obj) + [Enqueued(obj)];
      free := free + {obj};
      outstanding := outstanding - {obj};
    }

    /** ~ObjectPool: dequeue everything and hand each object to the
        deleter, once. Every release closure holds a shared reference to
        the pool, so the destructor only runs once no handle is
        outstanding. */
    method Destroy()
      requires Valid() && outstanding == map[]
      modifies this`free, this`deleterCalls
      ensures free == {}
      ensures multiset(deleterCalls) == multiset(old(deleterCalls)) + multiset(old(free))
      ensures |deleterCalls| == |old(deleterCalls)| + allocCount
    {
      ghost var queued := free;
      ghost var drained: set<Obj> := {};
      while free != {}
        invariant free !! drained && free + drained == queued
        invariant multiset(deleterCalls) == multiset(old(deleterCalls)) + multiset(drained)
        invariant |deleterCalls| == |old(deleterCalls)| + |drained|
        decreases |free|
      {
        var obj :| obj in free;
        assert obj !in drained;
        assert multiset(drained + {obj}) == multiset(drained) + multiset{obj};
        free := free - {obj};
        deleterCalls := deleterCalls + [obj];
        drained := drained + {obj};
      }
      assert drained == queued;
    }
  }

  /** get a, get b, release a, get c: c reuses a, so exactly two objects
      are constructed; once b and c are returned and the pool destroyed,
      the deleter has run once per constructed object. */
  method ReusesAllocated() returns (constructed: nat, deleted: nat)
    ensures constructed == 2 && deleted == constructed
  {
    var pool := new Pool();
    var a, _ := pool.Get([]);
    var b, _ := pool.Get([]);
    pool.Release(a);
    var c, _ := pool.Get([]);
    constructed := pool.PoolSize();
    deleted := TearDown(pool, b, c);
  }

  /** Return the two outstanding handles, then destroy the pool: the
      deleter runs once per constructed object. */
  method TearDown(pool: Pool, b: Obj, c: Obj) returns (deleted: nat)
    requires pool.Valid() && pool.outstanding.Keys == {b, c} && b != c
    requires pool.deleterCalls == []
    modifies pool
    ensures deleted == old(pool.allocCount)
  {
    pool.Release(b);
    pool.Release(c);
    pool.Destroy();
    deleted := |pool.deleterCalls|;
  }

  /** A hook given to Get runs when the handle is released, and the
      deleter is not called. */
  method CanHookOnRelease(hook: Hook) returns (signaled: bool, deleted: nat)
    ensures signaled && deleted == 0
  {
    var pool := new Pool();
    var a, _ := pool.Get([hook]);
    pool.Release(a);
    signaled := HookRan(hook, a) in pool.log;
    deleted := |pool.deleterCalls|;
  }
}
