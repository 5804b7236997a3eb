/** The calls that runs of the protocols make on a real `StoreLocks` leave it as they say. */
module LocksReplay {
  import opened Wrappers
  import opened Types
  import opened StoreState
  import opened StoreProtocol
  import opened StoreTheorems
  import opened StoreLocksModule
  import Registry = LockRegistry

  // ---- The append journal of a cold build -----------------------------------------------------

  predicate Begins(s: State, p: Pid, a: Action) {
    a.Advance? && PcOf(s, p).BuildBegin?
  }

  predicate Records(s: State, p: Pid, a: Action) {
    a.Advance? && PcOf(s, p).AppendWritten?
  }

  /** The appends that the steps `from..to` finalise. */
  function Recorded(run: seq<State>, schedule: Schedule, from: nat, to: nat): Journal
    requires |run| == |schedule| + 1 && from <= to < |run|
  {
    if from == to then []
    else
      var (p, a) := schedule[to - 1];
      var pc := PcOf(run[to - 1], p);
      Recorded(run, schedule, from, to - 1) + if Records(run[to - 1], p, a) then [(pc.thread, pc.msg)] else []
  }

  /** A build began at step `k` and has not ended before state `i`. */
  predicate OpenSince(run: seq<State>, schedule: Schedule, k: nat, i: nat)
    requires |run| == |schedule| + 1
  {
    && k < i < |run| && Begins(run[k], schedule[k].0, schedule[k].1)
    && forall j | k < j <= i :: run[j].store.journal.Some?
  }

  /** What a step does to the journal. */
  lemma JournalStep(s: State, p: Pid, a: Action, s': State)
    requires Inv(s) && Next(s, p, a) == Some(s')
    ensures Begins(s, p, a) ==> s.store.journal.None? && s'.store.journal == Some([])
    ensures s'.store.journal.Some? && !Begins(s, p, a) ==> s.store.journal.Some?
    ensures s.store.journal.Some? && s'.store.journal.Some? ==>
              s'.store.journal.value == s.store.journal.value
                                        + if Records(s, p, a) then [(PcOf(s, p).thread, PcOf(s, p).msg)] else []
  {
    assert ProcOk(s, p);
  }

  /** An open journal was opened by a build that is still going. */
  lemma {:induction false} OpenedBy(run: seq<State>, schedule: Schedule, i: nat) returns (k: nat)
    requires IsRun(run, schedule) && i < |run| && run[i].store.journal.Some?
    ensures OpenSince(run, schedule, k, i)
  {
    var p, a := schedule[i - 1].0, schedule[i - 1].1;
    if Begins(run[i - 1], p, a) {
      k := i - 1;
    } else {
      RunKeepsInv(run, schedule, i - 1);
      JournalStep(run[i - 1], p, a, run[i]);
      k := OpenedBy(run, schedule, i - 1);
    }
  }

  /** What step `i - 1` of a run did to the journal. */
  predicate JournalLinked(run: seq<State>, schedule: Schedule, i: nat)
    requires |run| == |schedule| + 1 && 0 < i < |run|
  {
    var (p, a) := schedule[i - 1];
    var before, after := run[i - 1].store.journal, run[i].store.journal;
    && (after.Some? && Begins(run[i - 1], p, a) ==> after.value == [])
    && (after.Some? && before.Some? ==> after.value == before.value + Recorded(run, schedule, i - 1, i))
  }

  lemma RunLinksJournal(run: seq<State>, schedule: Schedule, i: nat)
    requires IsRun(run, schedule) && 0 < i < |run|
    ensures JournalLinked(run, schedule, i)
  {
    RunKeepsInv(run, schedule, i - 1);
    JournalStep(run[i - 1], schedule[i - 1].0, schedule[i - 1].1, run[i]);
    assert Recorded(run, schedule, i - 1, i - 1) == [];
  }

  lemma RecordedStep(run: seq<State>, schedule: Schedule, from: nat, to: nat)
    requires |run| == |schedule| + 1 && from < to < |run|
    ensures Recorded(run, schedule, from, to)
         == Recorded(run, schedule, from, to - 1) + Recorded(run, schedule, to - 1, to)
  {
    assert Recorded(run, schedule, to - 1, to - 1) == [];
  }

  lemma {:induction false} LinkedIsRecorded(run: seq<State>, schedule: Schedule, k: nat, i: nat)
    requires |run| == |schedule| + 1 && OpenSince(run, schedule, k, i)
    requires forall j | 0 < j < |run| :: JournalLinked(run, schedule, j)
    ensures run[i].store.journal == Some(Recorded(run, schedule, k + 1, i))
  {
    assert JournalLinked(run, schedule, i);
    if i > k + 1 {
      LinkedIsRecorded(run, schedule, k, i - 1);
      RecordedStep(run, schedule, k + 1, i);
    }
  }

  /** It holds exactly the appends finalised since that build began, in order. */
  lemma JournalIsRecorded(run: seq<State>, schedule: Schedule, k: nat, i: nat)
    requires IsRun(run, schedule) && OpenSince(run, schedule, k, i)
    ensures run[i].store.journal == Some(Recorded(run, schedule, k + 1, i))
  {
    forall j | 0 < j < |run| ensures JournalLinked(run, schedule, j) {
      RunLinksJournal(run, schedule, j);
    }
    LinkedIsRecorded(run, schedule, k, i);
  }

  predicate Finishes(s: State, p: Pid, a: Action) {
    a.Advance? && PcOf(s, p).BuildScan?
  }

  /** The steps that call the locks about the journal. */
  predicate CallsJournal(s: State, p: Pid, a: Action) {
    Begins(s, p, a) || Records(s, p, a) || Finishes(s, p, a) || a.FailSnapshot?
  }

  lemma WriterKeepsJournal(s: State, p: Pid, s': State)
    requires Continue(s, p) == Some(s') && PcOf(s, p).Writes()
    ensures s'.store.journal == s.store.journal
  {
  }

  lemma AdvanceKeepsJournal(s: State, p: Pid, s': State)
    requires Continue(s, p) == Some(s')
    requires !PcOf(s, p).BuildBegin? && !PcOf(s, p).AppendWritten? && !PcOf(s, p).BuildScan?
    ensures s'.store.journal == s.store.journal
  {
    if PcOf(s, p).Writes() {
      WriterKeepsJournal(s, p, s');
    }
  }

  lemma OtherKeepsJournal(s: State, p: Pid, a: Action, s': State)
    requires Next(s, p, a) == Some(s') && !CallsJournal(s, p, a)
    ensures s'.store.journal == s.store.journal
  {
    if a.Advance? {
      AdvanceKeepsJournal(s, p, s');
    }
  }

  /** Make the call that one step makes. */
  method FollowStep(locks: StoreLocks, s: State, p: Pid, a: Action, ghost s': State) returns (drained: Journal)
    requires Inv(s) && Next(s, p, a) == Some(s') && locks.pendingIndexAppends == s.store.journal
    modifies locks
    ensures locks.pendingIndexAppends == s'.store.journal
    ensures Finishes(s, p, a) ==>
              s.store.journal == Some(drained) && s'.store.cache == Some(Drain(PcOf(s, p).built, drained))
  {
    drained := [];
    if !CallsJournal(s, p, a) {
      OtherKeepsJournal(s, p, a, s');
      return;
    }
    assert ProcOk(s, p);
    match a
    case Advance =>
      match PcOf(s, p) {
        case BuildBegin =>
          // The serialisation the debug build checks.
          assert locks.pendingIndexAppends.None?;
          locks.BeginIndexBuild();
        case AppendWritten(t, m) => locks.RecordIndexAppend(t, m);
        case BuildScan(_, _) => drained := locks.FinishIndexBuild();
      }
    case FailSnapshot => locks.CancelIndexBuild();
  }

  /** If step `i` publishes, it drains `drained`, the whole journal. */
  predicate Drains(run: seq<State>, schedule: Schedule, i: nat, drained: Journal)
    requires |run| == |schedule| + 1 && i < |schedule|
  {
    Finishes(run[i], schedule[i].0, schedule[i].1) ==>
      run[i].store.journal == Some(drained)
      && run[i + 1].store.cache == Some(Drain(PcOf(run[i], schedule[i].0).built, drained))
  }

  /** What a publication drains was recorded since its build began. */
  lemma DrainedIsRecorded(run: seq<State>, schedule: Schedule, i: nat, drained: Journal)
    requires IsRun(run, schedule) && i < |schedule| && Finishes(run[i], schedule[i].0, schedule[i].1)
    requires Drains(run, schedule, i, drained)
    ensures exists k: nat :: OpenSince(run, schedule, k, i) && drained == Recorded(run, schedule, k + 1, i)
  {
    var k := OpenedBy(run, schedule, i);
    JournalIsRecorded(run, schedule, k, i);
  }

  method FollowRunStep(locks: StoreLocks, run: seq<State>, schedule: Schedule, i: nat) returns (drained: Journal)
    requires IsRun(run, schedule) && i < |schedule| && locks.pendingIndexAppends == run[i].store.journal
    modifies locks
    ensures locks.pendingIndexAppends == run[i + 1].store.journal && Drains(run, schedule, i, drained)
  {
    RunKeepsInv(run, schedule, i);
    drained := FollowStep(locks, run[i], schedule[i].0, schedule[i].1, run[i + 1]);
  }

  /** The begin, record, finish and cancel calls of a whole run, made on one lock set: a build
      starts with the journal closed, and what each publication drains are exactly the appends
      finalised since its build began. */
  method FollowBuilds(run: seq<State>, schedule: Schedule) returns (locks: StoreLocks, drained: seq<Journal>)
    requires IsRun(run, schedule)
    ensures locks.pendingIndexAppends == run[|schedule|].store.journal && |drained| == |schedule|
    ensures forall i | 0 <= i < |schedule| :: Drains(run, schedule, i, drained[i])
    ensures forall i | 0 <= i < |schedule| && Finishes(run[i], schedule[i].0, schedule[i].1) ::
              exists k: nat :: OpenSince(run, schedule, k, i) && drained[i] == Recorded(run, schedule, k + 1, i)
  {
    locks := new StoreLocks();
    drained := [];
    for n := 0 to |schedule|
      invariant fresh(locks) && locks.pendingIndexAppends == run[n].store.journal && |drained| == n
      invariant forall i | 0 <= i < n :: Drains(run, schedule, i, drained[i])
    {
      var appends := FollowRunStep(locks, run, schedule, n);
      drained := drained + [appends];
    }
    forall i | 0 <= i < |schedule| && Finishes(run[i], schedule[i].0, schedule[i].1)
      ensures exists k: nat :: OpenSince(run, schedule, k, i) && drained[i] == Recorded(run, schedule, k + 1, i)
    {
      DrainedIsRecorded(run, schedule, i, drained[i]);
    }
  }

  // ---- Reference counts -----------------------------------------------------------------------

  /** The processes with a handle to this mutex. */
  function Holders(s: Registry.State, l: Registry.LockId): set<Registry.Pid> {
    set p | p in s.procs && s.procs[p].handle.Some? && s.procs[p].handle.value.lock == l
  }

  function Count(strong: map<Registry.LockId, nat>, l: Registry.LockId): nat {
    if l in strong then strong[l] else 0
  }

  ghost predicate Counted(strong: map<Registry.LockId, nat>, s: Registry.State) {
    forall l: Registry.LockId :: Count(strong, l) == |Holders(s, l)|
  }

  /** Counting the handles tells which mutexes are held. */
  lemma AliveAreCounted(strong: map<Registry.LockId, nat>, s: Registry.State, l: Registry.LockId)
    requires Counted(strong, s)
    ensures l in Registry.Alive(s) <==> Count(strong, l) > 0
  {
    assert Count(strong, l) == |Holders(s, l)|;
    if l in Registry.Alive(s) {
      var p :| p in s.procs && s.procs[p].handle.Some? && s.procs[p].handle.value.lock == l;
      assert p in Holders(s, l);
    } else {
      assert Holders(s, l) == {};
    }
  }

  lemma AliveAgree(locks: StoreLocks, s: Registry.State)
    requires Counted(locks.strong, s)
    ensures locks.AliveLocks() == Registry.Alive(s)
  {
    forall l: Registry.LockId ensures l in locks.AliveLocks() <==> l in Registry.Alive(s) {
      AliveAreCounted(locks.strong, s, l);
    }
  }

  /** One process without a handle takes one. */
  lemma TakenHolders(s: Registry.State, p: Registry.Pid, handle: Registry.Handle, s': Registry.State,
                     l: Registry.LockId)
    requires Registry.ProcOf(s, p).handle.None? && p in s'.procs && s'.procs[p].handle == Some(handle)
    requires s'.procs == s.procs[p := s'.procs[p]]
    ensures |Holders(s', l)| == |Holders(s, l)| + if l == handle.lock then 1 else 0
  {
    forall q: Registry.Pid | q != p ensures q in Holders(s', l) <==> q in Holders(s, l) {
      assert q in s'.procs <==> q in s.procs;
    }
    if l == handle.lock {
      assert Holders(s', l) == Holders(s, l) + {p};
    } else {
      assert Holders(s', l) == Holders(s, l);
    }
  }

  lemma DropHolders(s: Registry.State, p: Registry.Pid, s': Registry.State, l: Registry.LockId)
    requires Registry.Next(s, p, Registry.Drop) == Some(s')
    ensures Holders(s', l) == Holders(s, l) - {p}
  {
  }

  /** The other actions leave the handles alone. */
  lemma OtherHolders(s: Registry.State, p: Registry.Pid, a: Registry.Action, s': Registry.State, l: Registry.LockId)
    requires Registry.Next(s, p, a) == Some(s') && !a.Get? && !a.Drop?
    ensures Holders(s', l) == Holders(s, l)
  {
  }

  predicate Matches(locks: StoreLocks, s: Registry.State)
    reads locks
  {
    locks.AsRegistry() == s.registry
  }

  method FollowGet(locks: StoreLocks, s: Registry.State, p: Registry.Pid, t: ThreadId, ghost s': Registry.State)
    returns (lock: Registry.LockId)
    requires Registry.Next(s, p, Registry.Get(t)) == Some(s')
    requires Matches(locks, s) && Counted(locks.strong, s)
    modifies locks
    ensures Matches(locks, s') && Counted(locks.strong, s')
    ensures Registry.ProcOf(s', p).handle == Some(Registry.Handle(t, lock))
  {
    AliveAgree(locks, s);
    ghost var before := locks.strong;
    lock := locks.Thread(t);
    forall l: Registry.LockId ensures Count(locks.strong, l) == |Holders(s', l)| {
      assert Count(before, l) == |Holders(s, l)|;
      TakenHolders(s, p, Registry.Handle(t, lock), s', l);
    }
  }

  method FollowDrop(locks: StoreLocks, s: Registry.State, p: Registry.Pid, ghost s': Registry.State)
    requires Registry.Next(s, p, Registry.Drop) == Some(s')
    requires Matches(locks, s) && Counted(locks.strong, s)
    modifies locks
    ensures Matches(locks, s') && Counted(locks.strong, s')
  {
    ghost var before := locks.strong;
    var handle := Registry.ProcOf(s, p).handle;
    if handle.Some? {
      assert p in Holders(s, handle.value.lock);
      assert Count(before, handle.value.lock) == |Holders(s, handle.value.lock)|;
      locks.DropHandle(handle.value.lock);
    }
    forall l: Registry.LockId ensures Count(locks.strong, l) == |Holders(s', l)| {
      assert Count(before, l) == |Holders(s, l)|;
      DropHolders(s, p, s', l);
      assert p !in Holders(s, l) ==> Holders(s, l) - {p} == Holders(s, l);
    }
  }

  /** Every fetch, drop, removal and clearing of a run of the registry, made on one lock set: each
      fetch returns the mutex the run hands out, and the strong counts are the handles held, so
      weak entries die exactly when the run drops the last handle. */
  method FollowHandles(run: seq<Registry.State>, schedule: Registry.Schedule)
    returns (locks: StoreLocks, fetched: seq<Registry.LockId>)
    requires Registry.IsRun(run, schedule)
    ensures Matches(locks, run[|schedule|]) && Counted(locks.strong, run[|schedule|])
    ensures |fetched| == |schedule| && forall i | 0 <= i < |schedule| && schedule[i].1.Get? ::
              Registry.ProcOf(run[i + 1], schedule[i].0).handle
              == Some(Registry.Handle(schedule[i].1.thread, fetched[i]))
  {
    locks := new StoreLocks();
    fetched := [];
    forall l: Registry.LockId ensures Count(locks.strong, l) == |Holders(run[0], l)| {
      assert Holders(run[0], l) == {};
    }
    for n := 0 to |schedule|
      invariant fresh(locks) && |fetched| == n
      invariant Matches(locks, run[n]) && Counted(locks.strong, run[n])
      invariant forall i | 0 <= i < n && schedule[i].1.Get? ::
                  Registry.ProcOf(run[i + 1], schedule[i].0).handle
                  == Some(Registry.Handle(schedule[i].1.thread, fetched[i]))
    {
      var lock := FollowAction(locks, run[n], schedule[n].0, schedule[n].1, run[n + 1]);
      fetched := fetched + [lock];
    }
  }

  method FollowAction(locks: StoreLocks, s: Registry.State, p: Registry.Pid, a: Registry.Action,
                      ghost s': Registry.State) returns (lock: Registry.LockId)
    requires Registry.Next(s, p, a) == Some(s')
    requires Matches(locks, s) && Counted(locks.strong, s)
    modifies locks
    ensures Matches(locks, s') && Counted(locks.strong, s')
    ensures a.Get? ==> Registry.ProcOf(s', p).handle == Some(Registry.Handle(a.thread, lock))
  {
    lock := 0;
    match a {
      case Get(t) =>
        lock := FollowGet(locks, s, p, t, s');
        return;
      case Drop =>
        FollowDrop(locks, s, p, s');
        return;
      case Remove(t) => locks.RemoveThread(t);
      case Clear => locks.ClearThreads();
      case _ =>
    }
    forall l: Registry.LockId ensures Count(locks.strong, l) == |Holders(s', l)| {
      OtherHolders(s, p, a, s', l);
      assert Count(locks.strong, l) == |Holders(s, l)|;
    }
  }
}
