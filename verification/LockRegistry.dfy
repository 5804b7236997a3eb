/**
 The registry of per-thread mutexes: entries hold their mutex weakly, every lookup prunes the
 dead ones, and delete and purge remove entries outright.
 */
module LockRegistry {
  import opened Wrappers
  import opened Types

  /** Identity of a mutex. */
  type LockId = nat

  datatype Registry = Registry(threads: map<ThreadId, LockId>, next: LockId)

  /** Drop the entries nobody holds strongly. */
  function Pruned(threads: map<ThreadId, LockId>, alive: set<LockId>): map<ThreadId, LockId> {
    map t | t in threads && threads[t] in alive :: threads[t]
  }

  /** The mutex of a thread: the registered one if it is alive, else a new one. */
  function Fetch(r: Registry, alive: set<LockId>, t: ThreadId): (Registry, LockId) {
    var kept := Pruned(r.threads, alive);
    if t in kept then (r.(threads := kept), kept[t])
    else (Registry(kept[t := r.next], r.next + 1), r.next)
  }

  function Forget(r: Registry, t: ThreadId): Registry {
    r.(threads := r.threads - {t})
  }

  function Cleared(r: Registry): Registry {
    r.(threads := map[])
  }

  // ---- Operations in flight -----------------------------------------------------------------

  type Pid = nat

  /** The lifecycle guard an operation holds. */
  datatype Guard = Outside | Reading | Writing

  /** A strong reference to the mutex fetched for a thread. */
  datatype Handle = Handle(thread: ThreadId, lock: LockId)

  datatype Proc = Proc(guard: Guard, handle: Option<Handle>, locked: bool)

  datatype State = State(registry: Registry, procs: map<Pid, Proc>)

  function ProcOf(s: State, p: Pid): Proc {
    if p in s.procs then s.procs[p] else Proc(Outside, None, false)
  }

  function Set(s: State, p: Pid, proc: Proc): State {
    s.(procs := s.procs[p := proc])
  }

  /** The mutexes with a strong reference. */
  function Alive(s: State): set<LockId> {
    set p | p in s.procs && s.procs[p].handle.Some? :: s.procs[p].handle.value.lock
  }

  predicate HoldsLock(s: State, p: Pid, l: LockId) {
    ProcOf(s, p).locked && ProcOf(s, p).handle.Some? && ProcOf(s, p).handle.value.lock == l
  }

  predicate Free(s: State, l: LockId) {
    forall p | p in s.procs :: !HoldsLock(s, p, l)
  }

  datatype Action =
    | Read
    | Write
    | Get(thread: ThreadId)
    | Lock
    | Unlock
    | Drop
    | Remove(thread: ThreadId)
    | Clear
    | Leave

  function DoGet(s: State, p: Pid, t: ThreadId): State {
    var (registry, lock) := Fetch(s.registry, Alive(s), t);
    Set(s, p, ProcOf(s, p).(handle := Some(Handle(t, lock)))).(registry := registry)
  }

  /** Handles are dropped before the lifecycle guard, and removal needs the write guard. */
  function Next(s: State, p: Pid, a: Action): Option<State> {
    var me := ProcOf(s, p);
    match a
    case Read =>
      if me.guard.Outside? && (forall q | q in s.procs :: !s.procs[q].guard.Writing?)
      then Some(Set(s, p, me.(guard := Reading))) else None
    case Write =>
      if forall q | q in s.procs :: s.procs[q].guard.Outside?
      then Some(Set(s, p, me.(guard := Writing))) else None
    case Get(t) => if !me.guard.Outside? && me.handle.None? then Some(DoGet(s, p, t)) else None
    case Lock =>
      if me.handle.Some? && Free(s, me.handle.value.lock) then Some(Set(s, p, me.(locked := true))) else None
    case Unlock => Some(Set(s, p, me.(locked := false)))
    case Drop => if me.locked then None else Some(Set(s, p, me.(handle := None)))
    case Remove(t) => if me.guard.Writing? then Some(s.(registry := Forget(s.registry, t))) else None
    case Clear => if me.guard.Writing? then Some(s.(registry := Cleared(s.registry))) else None
    case Leave => if me.handle.None? then Some(Set(s, p, me.(guard := Outside))) else None
  }

  // ---- Safety -------------------------------------------------------------------------------

  predicate RegistryOk(r: Registry) {
    && (forall t | t in r.threads :: r.threads[t] < r.next)
    && (forall t, u | t in r.threads && u in r.threads && t != u :: r.threads[t] != r.threads[u])
  }

  /** A reader's handle is the registered one; the writer's may have been removed. */
  predicate HandleOk(s: State, p: Pid) {
    var me := ProcOf(s, p);
    && (me.guard.Outside? ==> me.handle.None?)
    && (me.locked ==> me.handle.Some?)
    && (me.handle.Some? ==>
          var h := me.handle.value;
          && h.lock < s.registry.next
          && (me.guard.Reading? ==> h.thread in s.registry.threads && s.registry.threads[h.thread] == h.lock)
          && (forall t | t in s.registry.threads && s.registry.threads[t] == h.lock :: t == h.thread))
  }

  predicate Alone(s: State, p: Pid, q: Pid) {
    p != q && ProcOf(s, p).guard.Writing? ==> ProcOf(s, q).guard.Outside?
  }

  predicate Exclusive(s: State, p: Pid, q: Pid) {
    p != q && ProcOf(s, p).handle.Some? && ProcOf(s, q).handle.Some?
    && ProcOf(s, p).handle.value.lock == ProcOf(s, q).handle.value.lock
    ==> !(ProcOf(s, p).locked && ProcOf(s, q).locked)
  }

  ghost predicate Inv(s: State) {
    && RegistryOk(s.registry)
    && (forall p: Pid :: HandleOk(s, p))
    && (forall p: Pid, q: Pid :: Alone(s, p, q))
    && (forall p: Pid, q: Pid :: Exclusive(s, p, q))
  }

  /** A lookup returns the registered live mutex, and keeps every live entry. */
  lemma FetchKeepsLive(r: Registry, alive: set<LockId>, t: ThreadId)
    requires RegistryOk(r)
    ensures var (r', l) := Fetch(r, alive, t);
            && RegistryOk(r') && r.next <= r'.next && l < r'.next
            && t in r'.threads && r'.threads[t] == l
            && (forall u | u in r.threads && r.threads[u] in alive :: u in r'.threads && r'.threads[u] == r.threads[u])
            && (forall u | u in r'.threads && u != t :: u in r.threads && r'.threads[u] == r.threads[u])
            && (l in alive && l < r.next ==> t in r.threads && r.threads[t] == l)
  {
  }

  lemma GetKeepsHandles(s: State, p: Pid, t: ThreadId, q: Pid)
    requires Inv(s) && Next(s, p, Get(t)).Some?
    ensures HandleOk(DoGet(s, p, t), q)
  {
    FetchKeepsLive(s.registry, Alive(s), t);
    assert HandleOk(s, q) && HandleOk(s, p) && Alone(s, p, q) && Alone(s, q, p);
    if q != p && ProcOf(s, q).handle.Some? {
      assert ProcOf(s, q).handle.value.lock in Alive(s);
    }
  }

  lemma GetKeepsInv(s: State, p: Pid, t: ThreadId)
    requires Inv(s) && Next(s, p, Get(t)).Some?
    ensures Inv(DoGet(s, p, t))
  {
    FetchKeepsLive(s.registry, Alive(s), t);
    assert HandleOk(s, p);
    var s' := DoGet(s, p, t);
    forall q: Pid ensures HandleOk(s', q) {
      GetKeepsHandles(s, p, t, q);
    }
    forall q: Pid, r: Pid ensures Alone(s', q, r) && Exclusive(s', q, r) {
      assert Alone(s, q, r) && Exclusive(s, q, r);
    }
  }

  lemma StepKeepsInv(s: State, p: Pid, a: Action, s': State)
    requires Inv(s) && Next(s, p, a) == Some(s')
    ensures Inv(s')
  {
    if a.Get? {
      GetKeepsInv(s, p, a.thread);
    } else {
      assert HandleOk(s, p);
      forall q: Pid ensures HandleOk(s', q) {
        assert HandleOk(s, q) && Alone(s, p, q);
      }
      forall q: Pid, r: Pid ensures Alone(s', q, r) && Exclusive(s', q, r) {
        assert Alone(s, q, r) && Exclusive(s, q, r);
      }
    }
  }

  type Schedule = seq<(Pid, Action)>

  ghost predicate IsRun(run: seq<State>, schedule: Schedule) {
    && |run| == |schedule| + 1
    && run[0] == State(Registry(map[], 0), map[])
    && forall i | 0 <= i < |schedule| :: Next(run[i], schedule[i].0, schedule[i].1) == Some(run[i + 1])
  }

  lemma {:induction false} RunKeepsInv(run: seq<State>, schedule: Schedule, i: nat)
    requires IsRun(run, schedule) && i < |run|
    ensures Inv(run[i])
  {
    if i > 0 {
      RunKeepsInv(run, schedule, i - 1);
      StepKeepsInv(run[i - 1], schedule[i - 1].0, schedule[i - 1].1, run[i]);
    }
  }

  /** In every run, two operations hold the same mutex exactly when they are on the same thread,
      and never both lock it. */
  lemma SameThreadSameLock(run: seq<State>, schedule: Schedule, i: nat, p: Pid, q: Pid)
    requires IsRun(run, schedule) && i < |run| && p != q
    requires ProcOf(run[i], p).handle.Some? && ProcOf(run[i], q).handle.Some?
    ensures var h, k := ProcOf(run[i], p).handle.value, ProcOf(run[i], q).handle.value;
            && (h.thread == k.thread <==> h.lock == k.lock)
            && (h.thread == k.thread ==> !(ProcOf(run[i], p).locked && ProcOf(run[i], q).locked))
  {
    RunKeepsInv(run, schedule, i);
    var s := run[i];
    assert HandleOk(s, p) && HandleOk(s, q) && Alone(s, p, q) && Alone(s, q, p) && Exclusive(s, p, q);
  }

  /** Removal under a read guard would not do: the next lookup hands out a second mutex for a
      thread whose first one is still held. */
  lemma RemovalNeedsWriteGuard(s: State, p: Pid, t: ThreadId)
    requires Inv(s) && ProcOf(s, p).handle.Some? && ProcOf(s, p).handle.value.thread == t
    ensures Fetch(Forget(s.registry, t), Alive(s), t).1 != ProcOf(s, p).handle.value.lock
  {
    assert HandleOk(s, p);
  }
}
