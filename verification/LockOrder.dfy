/** The lock order of the conversation store, and what it buys: no deadlock. */
module LockOrder {
  import opened Wrappers
  import opened Types

  datatype Lock =
    | LifecycleRead
    | LifecycleWrite
    | IndexBuild
    | ThreadLock(thread: ThreadId)
    | Metadata
    | Journal
    | IndexCache
    | Registry

  const MAX_RANK: nat := 4

  /** Locks are taken in increasing rank; locks of one rank are never nested. */
  function Rank(l: Lock): (r: nat)
    ensures r <= MAX_RANK
  {
    match l
    case LifecycleRead => 0
    case LifecycleWrite => 0
    case IndexBuild => 1
    case ThreadLock(_) => 2
    case Metadata => 3
    case _ => 4
  }

  predicate Conflict(a: Lock, b: Lock) {
    (a == b && !a.LifecycleRead?) || (a.LifecycleRead? && b.LifecycleWrite?) || (a.LifecycleWrite? && b.LifecycleRead?)
  }

  // ---- The operations -----------------------------------------------------------------------

  /** The tree of locks an operation takes, with its data-dependent branches resolved by
      parameters. */
  datatype Code = Skip | Locked(lock: Lock, body: Code) | Then(first: Code, second: Code)

  function Brief(l: Lock): Code {
    Locked(l, Skip)
  }

  /** Look the thread's mutex up, then work under it. */
  function OnThread(t: ThreadId, body: Code): Code {
    Then(Brief(Registry), Locked(ThreadLock(t), body))
  }

  /** `body` once per thread, each time under that thread's lock. */
  function ForEach(threads: seq<ThreadId>, body: Code): Code {
    if threads == [] then Skip else Then(OnThread(threads[0], body), ForEach(threads[1..], body))
  }

  /** The operations on one thread. */
  datatype ThreadOp =
    | EnsureThread
    | GetMessages
    | UpdateTitle
    | UpdateLabels
    | UpdateMessage
    | Append(writes: bool)
    | DeleteMessagesFrom(found: bool)
    | DeleteThread(live: bool)

  datatype StoreOp =
    | On(thread: ThreadId, op: ThreadOp)
    | Purge
    | SearchWarm
    | SearchLostRace
    | SearchBuilds(threads: seq<ThreadId>)
    | SearchFails
    | ListThreads(rounds: seq<seq<ThreadId>>)

  /** Check the cache, and again under the build mutex. */
  function Priming(underBuildMutex: Code): Code {
    Then(Brief(IndexCache), Locked(IndexBuild, Then(Brief(IndexCache), underBuildMutex)))
  }

  /** Open the journal, snapshot the thread ids, scan each thread, drain and publish. */
  function Building(threads: seq<ThreadId>): Code {
    Then(Then(Brief(Journal), Brief(Metadata)),
         Then(ForEach(threads, Skip), Locked(Metadata, Then(Brief(Journal), Brief(IndexCache)))))
  }

  function Listing(rounds: seq<seq<ThreadId>>): Code {
    if rounds == [] then Brief(Metadata)
    else Then(Brief(Metadata), Then(ForEach(rounds[0], Brief(Metadata)), Listing(rounds[1..])))
  }

  /** What an operation does under its thread's lock. */
  function UnderThread(op: ThreadOp): Code {
    match op
    case UpdateMessage => Skip
    case Append(writes) =>
      Then(Brief(Metadata), if writes then Locked(Metadata, Then(Brief(Journal), Brief(IndexCache))) else Skip)
    case DeleteMessagesFrom(found) => if found then Then(Brief(Metadata), Brief(IndexCache)) else Skip
    case DeleteThread(live) =>
      if live then Then(Brief(Metadata), Then(Brief(Registry), Brief(IndexCache))) else Locked(Metadata, Brief(Registry))
    case _ => Brief(Metadata)
  }

  /** What an operation does under the lifecycle guard. */
  function UnderLifecycle(op: StoreOp): Code {
    match op
    case On(t, threadOp) => OnThread(t, UnderThread(threadOp))
    case Purge => Locked(Metadata, Then(Brief(IndexCache), Brief(Registry)))
    case SearchWarm => Then(Brief(IndexCache), Brief(IndexCache))
    case SearchLostRace => Then(Priming(Skip), Brief(IndexCache))
    case SearchBuilds(threads) => Then(Priming(Building(threads)), Brief(IndexCache))
    case SearchFails => Priming(Then(Brief(Journal), Locked(Metadata, Brief(Journal))))
    case ListThreads(rounds) => Listing(rounds)
  }

  predicate TakesWriteGuard(op: StoreOp) {
    op.Purge? || (op.On? && op.op.DeleteThread?)
  }

  function CodeOf(op: StoreOp): Code {
    Locked(if TakesWriteGuard(op) then LifecycleWrite else LifecycleRead, UnderLifecycle(op))
  }

  /** Every lock in `code` outranks the locks around it, which rank below `floor`. */
  predicate Ordered(floor: nat, code: Code)
    decreases code
  {
    match code
    case Skip => true
    case Locked(l, body) => floor <= Rank(l) && Ordered(Rank(l) + 1, body)
    case Then(a, b) => Ordered(floor, a) && Ordered(floor, b)
  }

  lemma {:induction false} ForEachOrdered(floor: nat, threads: seq<ThreadId>, body: Code)
    requires floor <= 2 && Ordered(3, body)
    ensures Ordered(floor, ForEach(threads, body))
  {
    if threads != [] {
      ForEachOrdered(floor, threads[1..], body);
    }
  }

  lemma BuildingOrdered(threads: seq<ThreadId>)
    ensures Ordered(2, Building(threads))
  {
    ForEachOrdered(2, threads, Skip);
    assert Ordered(2, Then(Brief(Journal), Brief(Metadata)));
    assert Ordered(4, Then(Brief(Journal), Brief(IndexCache)));
  }

  lemma PrimingOrdered(underBuildMutex: Code)
    requires Ordered(2, underBuildMutex)
    ensures Ordered(1, Priming(underBuildMutex))
  {
    assert Ordered(2, Then(Brief(IndexCache), underBuildMutex));
  }

  lemma {:induction false} ListingOrdered(rounds: seq<seq<ThreadId>>)
    ensures Ordered(1, Listing(rounds))
  {
    if rounds != [] {
      ForEachOrdered(1, rounds[0], Brief(Metadata));
      ListingOrdered(rounds[1..]);
    }
  }

  lemma UnderThreadOrdered(op: ThreadOp)
    ensures Ordered(3, UnderThread(op))
  {
    assert Ordered(4, Then(Brief(Journal), Brief(IndexCache)));
    assert Ordered(3, Then(Brief(Registry), Brief(IndexCache)));
  }

  lemma UnderLifecycleOrdered(op: StoreOp)
    ensures Ordered(1, UnderLifecycle(op))
  {
    match op
    case On(_, threadOp) => UnderThreadOrdered(threadOp);
    case SearchLostRace => PrimingOrdered(Skip);
    case SearchBuilds(threads) => BuildingOrdered(threads); PrimingOrdered(Building(threads));
    case SearchFails => PrimingOrdered(Then(Brief(Journal), Locked(Metadata, Brief(Journal))));
    case ListThreads(rounds) => ListingOrdered(rounds);
    case _ =>
  }

  /** Every operation keeps the order: lifecycle, build mutex, one thread lock, metadata, leaf. */
  lemma OperationOrdered(op: StoreOp)
    ensures Ordered(0, CodeOf(op))
  {
    UnderLifecycleOrdered(op);
  }

  // ---- Execution ----------------------------------------------------------------------------

  datatype Act = Take(lock: Lock) | Drop(lock: Lock)

  function Trace(code: Code): seq<Act> {
    match code
    case Skip => []
    case Locked(l, body) => [Take(l)] + Trace(body) + [Drop(l)]
    case Then(a, b) => Trace(a) + Trace(b)
  }

  function Program(ops: seq<StoreOp>): seq<Act> {
    if ops == [] then [] else Trace(CodeOf(ops[0])) + Program(ops[1..])
  }

  /** The locks held after `acts`; `None` if an acquisition does not outrank all held locks. */
  function After(held: set<Lock>, acts: seq<Act>): Option<set<Lock>>
    decreases acts
  {
    if acts == [] then Some(held)
    else
      match acts[0]
      case Take(l) => if forall h | h in held :: Rank(h) < Rank(l) then After(held + {l}, acts[1..]) else None
      case Drop(l) => if l in held then After(held - {l}, acts[1..]) else None
  }

  lemma {:induction false} AfterConcat(held: set<Lock>, a: seq<Act>, b: seq<Act>)
    requires After(held, a).Some?
    ensures After(held, a + b) == After(After(held, a).value, b)
    decreases a
  {
    if a == [] {
      assert a + b == b;
    } else {
      assert (a + b)[1..] == a[1..] + b;
      AfterConcat(if a[0].Take? then held + {a[0].lock} else held - {a[0].lock}, a[1..], b);
    }
  }

  lemma {:induction false} OrderedTrace(floor: nat, code: Code, held: set<Lock>)
    requires Ordered(floor, code) && forall h | h in held :: Rank(h) < floor
    ensures After(held, Trace(code)) == Some(held)
    decreases code
  {
    match code
    case Skip =>
    case Locked(l, body) =>
      OrderedTrace(Rank(l) + 1, body, held + {l});
      AfterConcat(held + {l}, Trace(body), [Drop(l)]);
      assert held + {l} - {l} == held;
      assert ([Take(l)] + Trace(body) + [Drop(l)])[1..] == Trace(body) + [Drop(l)];
    case Then(a, b) =>
      OrderedTrace(floor, a, held);
      OrderedTrace(floor, b, held);
      AfterConcat(held, Trace(a), Trace(b));
  }

  lemma {:induction false} ProgramOrdered(ops: seq<StoreOp>)
    ensures After({}, Program(ops)) == Some({})
  {
    if ops != [] {
      OperationOrdered(ops[0]);
      OrderedTrace(0, CodeOf(ops[0]), {});
      ProgramOrdered(ops[1..]);
      AfterConcat({}, Trace(CodeOf(ops[0])), Program(ops[1..]));
    }
  }

  /** A process: the locks it holds and what it still has to do. It runs operations one after
      another; processes interleave at every acquisition and release. */
  datatype Proc = Proc(held: set<Lock>, todo: seq<Act>)

  type System = seq<Proc>

  predicate Done(p: Proc) {
    p.todo == []
  }

  /** Some other process holds a lock that conflicts with `l`. */
  predicate Held(s: System, i: nat, l: Lock) {
    exists j, m | 0 <= j < |s| && j != i && m in s[j].held :: Conflict(l, m)
  }

  /** Some other process is waiting for the lifecycle write guard. */
  predicate WriterWaits(s: System, i: nat) {
    exists j | 0 <= j < |s| && j != i :: s[j].todo != [] && s[j].todo[0] == Take(LifecycleWrite)
  }

  predicate CanStep(s: System, i: nat)
    requires i < |s|
  {
    !Done(s[i]) && (s[i].todo[0].Take? ==> !Held(s, i, s[i].todo[0].lock))
  }

  /** The same, with new readers queueing behind a waiting writer. */
  predicate CanStepFairly(s: System, i: nat)
    requires i < |s|
  {
    CanStep(s, i) && (s[i].todo[0] == Take(LifecycleRead) ==> !WriterWaits(s, i))
  }

  function StepProc(p: Proc): Proc
    requires !Done(p)
  {
    Proc(if p.todo[0].Take? then p.held + {p.todo[0].lock} else p.held - {p.todo[0].lock}, p.todo[1..])
  }

  function Step(s: System, i: nat): System
    requires i < |s| && !Done(s[i])
  {
    s[i := StepProc(s[i])]
  }

  predicate ProcOk(p: Proc) {
    After(p.held, p.todo) == Some({})
  }

  predicate Compatible(p: Proc, q: Proc) {
    forall l, m | l in p.held && m in q.held :: !Conflict(l, m)
  }

  /** Every process will release what it holds, in order, and no conflicting locks are held. */
  predicate Inv(s: System) {
    && (forall i | 0 <= i < |s| :: ProcOk(s[i]))
    && (forall i, j | 0 <= i < |s| && 0 <= j < |s| && i != j :: Compatible(s[i], s[j]))
  }

  /** Processes about to run these operations. */
  function Start(programs: seq<seq<StoreOp>>): System {
    seq(|programs|, i requires 0 <= i < |programs| => Proc({}, Program(programs[i])))
  }

  lemma StartInv(programs: seq<seq<StoreOp>>)
    ensures Inv(Start(programs))
  {
    forall i | 0 <= i < |programs| ensures ProcOk(Start(programs)[i]) {
      ProgramOrdered(programs[i]);
    }
  }

  lemma StepKeepsInv(s: System, i: nat)
    requires Inv(s) && i < |s| && CanStep(s, i)
    ensures Inv(Step(s, i))
  {
    var s' := Step(s, i);
    assert ProcOk(s[i]);
    forall j, k | 0 <= j < |s| && 0 <= k < |s| && j != k ensures Compatible(s'[j], s'[k]) {
      assert Compatible(s[j], s[k]) && Compatible(s[k], s[j]);
      forall l, m | l in s'[j].held && m in s'[k].held ensures !Conflict(l, m) {
        assert l !in s[j].held ==> j == i && m in s[k].held && !Held(s, i, l);
        assert m !in s[k].held ==> k == i && l in s[j].held && !Held(s, i, m);
        assert Conflict(m, l) == Conflict(l, m);
      }
    }
  }

  // ---- Progress -----------------------------------------------------------------------------

  /** Follow the chain of blockers from process `i`: ranks rise, so it ends at one that can step. */
  lemma {:induction false} SomeoneSteps(s: System, i: nat) returns (j: nat)
    requires Inv(s) && i < |s| && !Done(s[i])
    ensures j < |s| && CanStepFairly(s, j)
    decreases if s[i].todo[0].Take? then MAX_RANK + 1 - Rank(s[i].todo[0].lock) else 0,
              if s[i].todo[0] == Take(LifecycleRead) then 1 else 0
  {
    if CanStepFairly(s, i) {
      return i;
    }
    var l := s[i].todo[0].lock;
    if Held(s, i, l) {
      var k, m :| 0 <= k < |s| && k != i && m in s[k].held && Conflict(l, m);
      assert ProcOk(s[k]);
      j := SomeoneSteps(s, k);
    } else {
      var w :| 0 <= w < |s| && w != i && s[w].todo != [] && s[w].todo[0] == Take(LifecycleWrite);
      j := SomeoneSteps(s, w);
    }
  }

  function Left(s: System): nat {
    if s == [] then 0 else |s[0].todo| + Left(s[1..])
  }

  lemma {:induction false} StepShortens(s: System, i: nat)
    requires i < |s| && !Done(s[i])
    ensures Left(Step(s, i)) == Left(s) - 1
  {
    if i == 0 {
      assert Step(s, i)[1..] == s[1..];
    } else {
      assert Step(s, i)[1..] == Step(s[1..], i - 1);
      StepShortens(s[1..], i - 1);
    }
  }

  predicate AllDone(s: System) {
    forall i | 0 <= i < |s| :: Done(s[i])
  }

  /** `run` starts the programs and takes the steps in `schedule`. */
  ghost predicate IsRun(programs: seq<seq<StoreOp>>, schedule: seq<nat>, run: seq<System>) {
    && |run| == |schedule| + 1
    && run[0] == Start(programs)
    && forall n | 0 <= n < |schedule| ::
         schedule[n] < |run[n]| && CanStep(run[n], schedule[n]) && run[n + 1] == Step(run[n], schedule[n])
  }

  lemma {:induction false} RunInv(programs: seq<seq<StoreOp>>, schedule: seq<nat>, run: seq<System>, n: nat)
    requires IsRun(programs, schedule, run) && n < |run|
    ensures Inv(run[n]) && Left(run[n]) + n == Left(Start(programs))
  {
    if n == 0 {
      StartInv(programs);
    } else {
      RunInv(programs, schedule, run, n - 1);
      StepKeepsInv(run[n - 1], schedule[n - 1]);
      StepShortens(run[n - 1], schedule[n - 1]);
    }
  }

  /** Deadlock freedom: whatever operations any number of processes run, in every reachable
      state either all are finished or some process can step, even with readers queueing behind
      writers. No run is longer than the acquisitions and releases of its operations, so every
      run that cannot be extended has finished them all. */
  lemma DeadlockFree(programs: seq<seq<StoreOp>>, schedule: seq<nat>, run: seq<System>)
    requires IsRun(programs, schedule, run)
    ensures |schedule| <= Left(Start(programs))
    ensures forall n | 0 <= n < |run| :: AllDone(run[n]) || exists i :: 0 <= i < |run[n]| && CanStepFairly(run[n], i)
  {
    RunInv(programs, schedule, run, |schedule|);
    forall n | 0 <= n < |run| && !AllDone(run[n])
      ensures exists i :: 0 <= i < |run[n]| && CanStepFairly(run[n], i)
    {
      RunInv(programs, schedule, run, n);
      var i :| 0 <= i < |run[n]| && !Done(run[n][i]);
      var j := SomeoneSteps(run[n], i);
    }
  }
}
