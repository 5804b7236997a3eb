/** The locks of one conversation root. */
module StoreLocksModule {
  import opened Wrappers
  import opened Types
  import opened StoreState
  import opened LockRegistry

  class StoreLocks {
    /** Weak references to the per-thread mutexes. */
    var threads: map<ThreadId, LockId>
    var nextLock: LockId
    /** Strong references to each mutex, held by operations in flight. */
    var strong: map<LockId, nat>
    /** Appends finalised while a cold scan is running; none while no scan is. */
    var pendingIndexAppends: Option<Journal>

    function AliveLocks(): set<LockId>
      reads this
    {
      set l | l in strong && strong[l] > 0
    }

    function AsRegistry(): Registry
      reads this
    {
      Registry(threads, nextLock)
    }

    constructor ()
      ensures AsRegistry() == Registry(map[], 0) && strong == map[] && pendingIndexAppends == None
    {
      threads, nextLock, strong, pendingIndexAppends := map[], 0, map[], None;
    }

    /** Fetch the mutex of a thread, as one more strong reference. */
    method Thread(t: ThreadId) returns (lock: LockId)
      modifies this
      ensures (AsRegistry(), lock) == Fetch(old(AsRegistry()), old(AliveLocks()), t)
      ensures strong == old(strong)[lock := 1 + if lock in old(strong) then old(strong)[lock] else 0]
      ensures lock in AliveLocks() && pendingIndexAppends == old(pendingIndexAppends)
    {
      var alive := AliveLocks();
      threads := map u | u in threads && threads[u] in alive :: threads[u];
      if t in threads {
        lock := threads[t];
      } else {
        lock := nextLock;
        nextLock := nextLock + 1;
        threads := threads[t := lock];
      }
      strong := strong[lock := 1 + if lock in strong then strong[lock] else 0];
    }

    method DropHandle(lock: LockId)
      requires lock in AliveLocks()
      modifies this
      ensures strong == old(strong)[lock := old(strong)[lock] - 1]
      ensures AsRegistry() == old(AsRegistry()) && pendingIndexAppends == old(pendingIndexAppends)
    {
      strong := strong[lock := strong[lock] - 1];
    }

    method RemoveThread(t: ThreadId)
      modifies this
      ensures AsRegistry() == Forget(old(AsRegistry()), t)
      ensures strong == old(strong) && pendingIndexAppends == old(pendingIndexAppends)
    {
      threads := threads - {t};
    }

    method ClearThreads()
      modifies this
      ensures AsRegistry() == Cleared(old(AsRegistry()))
      ensures strong == old(strong) && pendingIndexAppends == old(pendingIndexAppends)
    {
      threads := map[];
    }

    method BeginIndexBuild()
      modifies this
      ensures pendingIndexAppends == Some([])
      ensures AsRegistry() == old(AsRegistry()) && strong == old(strong)
    {
      pendingIndexAppends := Some([]);
    }

    /** Journal an append if a build is running. */
    method RecordIndexAppend(t: ThreadId, m: Message)
      modifies this
      ensures pendingIndexAppends == if old(pendingIndexAppends).None? then None
                                     else Some(old(pendingIndexAppends).value + [(t, m)])
      ensures AsRegistry() == old(AsRegistry()) && strong == old(strong)
    {
      if pendingIndexAppends.Some? {
        pendingIndexAppends := Some(pendingIndexAppends.value + [(t, m)]);
      }
    }

    method FinishIndexBuild() returns (appends: Journal)
      modifies this
      ensures pendingIndexAppends == None
      ensures appends == if old(pendingIndexAppends).Some? then old(pendingIndexAppends).value else []
      ensures AsRegistry() == old(AsRegistry()) && strong == old(strong)
    {
      appends := if pendingIndexAppends.Some? then pendingIndexAppends.value else [];
      pendingIndexAppends := None;
    }

    method CancelIndexBuild()
      modifies this
      ensures pendingIndexAppends == None
      ensures AsRegistry() == old(AsRegistry()) && strong == old(strong)
    {
      pendingIndexAppends := None;
    }
  }
}
