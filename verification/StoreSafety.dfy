/**
 What every step of every process does to the locks and to each thread's view.

 Each step has up to four lemmas. `...Locks`: the lock invariant survives. `...Own`: how the
 view of the thread the step works on changes. `...Other`: the views of all other threads stay
 as they are. The lemma named after the step puts these together with the matching lemma of
 `StoreViews`. Steps that work on no thread in particular have one `...View` lemma in place of
 the middle two.

 Only the combining lemmas mention the whole invariant; the others need no more than the lock
 invariant, which keeps each proof small.
 */
module StoreSafety {
  import opened Wrappers
  import opened Types
  import opened ThreadLog
  import opened Transcript
  import opened StoreState
  import opened StoreProtocol
  import opened StoreViews

  // ---- Locks ------------------------------------------------------------------------------

  function Reheld(holder: map<ThreadId, Pid>, before: Option<ThreadId>, after: Option<ThreadId>, p: Pid)
    : map<ThreadId, Pid>
  {
    var released := if before.Some? then holder - {before.value} else holder;
    if after.Some? then released[after.value := p] else released
  }

  function Owner(owner: Option<Pid>, p: Pid, holds: bool): Option<Pid> {
    if holds then Some(p) else if owner == Some(p) then None else owner
  }

  /** `s'` differs from `s` by a move of `p` that takes only locks that are free. */
  ghost predicate LockMove(s: State, s': State, p: Pid) {
    var pc, pc' := PcOf(s, p), PcOf(s', p);
    && (forall q: Pid | q != p :: PcOf(s', q) == PcOf(s, q))
    && s'.holder == Reheld(s.holder, pc.Thread(), pc'.Thread(), p)
    && (pc'.Thread().Some? && pc'.Thread() != pc.Thread() ==> pc'.Thread().value !in s.holder)
    && s'.builder == Owner(s.builder, p, pc'.Builds())
    && (pc'.Builds() ==> s.builder == None || s.builder == Some(p))
    && s'.writer == Owner(s.writer, p, pc'.Writes())
    && (pc'.Writes() && !pc.Writes() ==> forall q: Pid | q != p :: PcOf(s, q).Idle?)
    && (!pc'.Idle? && !pc'.Writes() ==> s.writer == None)
  }

  lemma LockMoveKeepsLocks(s: State, s': State, p: Pid)
    requires LocksOk(s) && LockMove(s, s', p)
    requires BuildMutexOk(s')
    requires s.store.cache.Some? && s'.store.cache.None? ==> PcOf(s, p).Writes()
    requires PcOf(s', p).SearchReady? ==> s'.store.cache.Some?
    ensures LocksOk(s')
  {
    assert ProcOk(s, p);
    forall q: Pid ensures ProcOk(s', q) {
      assert ProcOk(s, q);
    }
    forall t: ThreadId ensures HolderOk(s', t) {
      assert HolderOk(s, t);
    }
  }

  /** A step of `p` on thread `t`, holding neither build mutex nor write guard, leaves the view
      of every other thread alone. */
  lemma Frame(s: State, s': State, p: Pid, t: ThreadId, u: ThreadId)
    requires LocksOk(s) && u != t
    requires forall q: Pid | q != p :: PcOf(s', q) == PcOf(s, q)
    requires PcOf(s, p).Thread() == None || PcOf(s, p).Thread() == Some(t)
    requires u in s'.holder <==> u in s.holder
    requires u in s.holder ==> s'.holder[u] == s.holder[u]
    requires s'.builder == s.builder && s.builder != Some(p)
    requires Wiped(s') == Wiped(s)
    requires FoldThread(s'.store.log, u) == FoldThread(s.store.log, u)
    requires RowsOf(s'.store, u) == RowsOf(s.store, u)
    requires s'.store.cache.Some? == s.store.cache.Some?
    requires s.store.cache.Some? ==> Of(s'.store.cache.value, u) == Of(s.store.cache.value, u)
    requires s'.store.journal.Some? == s.store.journal.Some?
    requires s.store.journal.Some? ==> JournalRows(s'.store.journal.value, u) == JournalRows(s.store.journal.value, u)
    requires Skipped(s', u) == Skipped(s, u) && (u in s'.stale <==> u in s.stale)
    ensures ViewOf(s', u) == ViewOf(s, u)
  {
    assert HolderOk(s, u);
  }

  /** What the lock invariant says about the process about to move. */
  lemma Mover(s: State, p: Pid)
    requires LocksOk(s)
    ensures ProcOk(s, p)
    ensures PcOf(s, p).Thread().Some? ==> HolderOk(s, PcOf(s, p).Thread().value)
    ensures !PcOf(s, p).Idle? && !PcOf(s, p).Writes() ==> s.writer.None?
    ensures s.builder == Some(p) ==> PcOf(s, p).Builds()
    ensures s.writer == Some(p) ==> PcOf(s, p).Writes()
  {
    assert ProcOk(s, p);
    if PcOf(s, p).Thread().Some? {
      assert HolderOk(s, PcOf(s, p).Thread().value);
    }
  }

  lemma AllIdleViews(s: State, u: ThreadId)
    requires LocksOk(s) && forall q: Pid :: PcOf(s, q).Idle?
    ensures s.holder == map[] && s.builder.None?
    ensures ViewOf(s, u).phase.Free? && ViewOf(s, u).scan.NoScan? && !ViewOf(s, u).wiped
  {
    forall t: ThreadId ensures t !in s.holder {
      assert HolderOk(s, t);
    }
  }

  // ---- Starting ----------------------------------------------------------------------------

  lemma AppendStartsLocks(s: State, p: Pid, t: ThreadId, m: Message)
    requires LocksOk(s) && CanLock(s, p, t)
    ensures LocksOk(StartAppend(s, p, t, m))
  {
    Mover(s, p);
    LockMoveKeepsLocks(s, StartAppend(s, p, t, m), p);
  }

  lemma AppendStartsOwn(s: State, p: Pid, t: ThreadId, m: Message)
    requires LocksOk(s) && CanLock(s, p, t)
    ensures ViewOf(StartAppend(s, p, t, m), t) == ViewOf(s, t).(phase := Locked)
  {
    Mover(s, p);
  }

  lemma AppendStartsOther(s: State, p: Pid, t: ThreadId, m: Message, u: ThreadId)
    requires LocksOk(s) && CanLock(s, p, t) && u != t
    ensures ViewOf(StartAppend(s, p, t, m), u) == ViewOf(s, u)
  {
    Mover(s, p);
    Frame(s, StartAppend(s, p, t, m), p, t, u);
  }

  lemma AppendStarts(s: State, p: Pid, t: ThreadId, m: Message, u: ThreadId)
    requires Inv(s) && CanLock(s, p, t)
    ensures LocksOk(StartAppend(s, p, t, m)) && Keeps(ViewOf(s, u), ViewOf(StartAppend(s, p, t, m), u))
  {
    AppendStartsLocks(s, p, t, m);
    if u == t {
      AppendStartsOwn(s, p, t, m);
      PhaseChange(ViewOf(s, t), Locked);
    } else {
      AppendStartsOther(s, p, t, m, u);
    }
  }

  lemma TruncateStartsLocks(s: State, p: Pid, t: ThreadId, id: MessageId, cut: nat)
    requires LocksOk(s) && CanLock(s, p, t) && IndexOf(RowsOf(s.store, t), id) == Some(cut)
    ensures LocksOk(StartTruncate(s, p, t, id))
  {
    Mover(s, p);
    LockMoveKeepsLocks(s, StartTruncate(s, p, t, id), p);
  }

  lemma TruncateStartsOwn(s: State, p: Pid, t: ThreadId, id: MessageId, cut: nat)
    requires LocksOk(s) && CanLock(s, p, t) && IndexOf(RowsOf(s.store, t), id) == Some(cut)
    requires BuildOk(ViewOf(s, t))
    ensures var v, w := ViewOf(s, t), ViewOf(StartTruncate(s, p, t, id), t);
            cut <= |v.rows| && w == AfterCut(v, cut)
  {
    Mover(s, p);
  }

  lemma TruncateStartsOther(s: State, p: Pid, t: ThreadId, id: MessageId, cut: nat, u: ThreadId)
    requires LocksOk(s) && CanLock(s, p, t) && u != t && IndexOf(RowsOf(s.store, t), id) == Some(cut)
    ensures ViewOf(StartTruncate(s, p, t, id), u) == ViewOf(s, u)
  {
    Mover(s, p);
    Frame(s, StartTruncate(s, p, t, id), p, t, u);
  }

  lemma TruncateStarts(s: State, p: Pid, t: ThreadId, id: MessageId, u: ThreadId)
    requires Inv(s) && CanLock(s, p, t)
    ensures LocksOk(StartTruncate(s, p, t, id)) && Keeps(ViewOf(s, u), ViewOf(StartTruncate(s, p, t, id), u))
  {
    var cut := IndexOf(RowsOf(s.store, t), id);
    if cut.Some? {
      TruncateStartsLocks(s, p, t, id, cut.value);
      if u == t {
        TruncateStartsOwn(s, p, t, id, cut.value);
        RowsCut(ViewOf(s, t), cut.value);
      } else {
        TruncateStartsOther(s, p, t, id, cut.value, u);
      }
    }
  }

  lemma SearchStarts(s: State, p: Pid, u: ThreadId)
    requires Inv(s) && CanStart(s, p)
    ensures LocksOk(StartSearch(s, p)) && Keeps(ViewOf(s, u), ViewOf(StartSearch(s, p), u))
  {
    var s' := StartSearch(s, p);
    Mover(s, p);
    LockMoveKeepsLocks(s, s', p);
    SamePhase(s, s', p, u);
    assert ViewOf(s', u) == ViewOf(s, u);
  }

  lemma DeleteStartsLocks(s: State, p: Pid, t: ThreadId, at: string)
    requires LocksOk(s) && CanStart(s, p) && AllIdle(s)
    ensures LocksOk(StartDelete(s, p, t, at))
  {
    Mover(s, p);
    AllIdleViews(s, t);
    LockMoveKeepsLocks(s, StartDelete(s, p, t, at), p);
  }

  lemma DeleteStartsOwn(s: State, p: Pid, t: ThreadId, at: string)
    requires LocksOk(s) && CanStart(s, p) && AllIdle(s)
    ensures ViewOf(StartDelete(s, p, t, at), t) == ViewOf(s, t).(phase := Locked)
  {
    Mover(s, p);
    AllIdleViews(s, t);
  }

  lemma DeleteStartsOther(s: State, p: Pid, t: ThreadId, at: string, u: ThreadId)
    requires LocksOk(s) && CanStart(s, p) && AllIdle(s) && u != t
    ensures ViewOf(StartDelete(s, p, t, at), u) == ViewOf(s, u)
  {
    Mover(s, p);
    AllIdleViews(s, u);
    Frame(s, StartDelete(s, p, t, at), p, t, u);
  }

  lemma DeleteStarts(s: State, p: Pid, t: ThreadId, at: string, u: ThreadId)
    requires Inv(s) && CanStart(s, p) && AllIdle(s)
    ensures LocksOk(StartDelete(s, p, t, at)) && Keeps(ViewOf(s, u), ViewOf(StartDelete(s, p, t, at), u))
  {
    DeleteStartsLocks(s, p, t, at);
    if u == t {
      DeleteStartsOwn(s, p, t, at);
      AllIdleViews(s, t);
      PhaseChange(ViewOf(s, t), Locked);
    } else {
      DeleteStartsOther(s, p, t, at, u);
    }
  }

  lemma PurgeStarts(s: State, p: Pid, u: ThreadId)
    requires Inv(s) && CanStart(s, p) && AllIdle(s)
    ensures LocksOk(StartPurge(s, p)) && Keeps(ViewOf(s, u), ViewOf(StartPurge(s, p), u))
  {
    var s' := StartPurge(s, p);
    Mover(s, p);
    AllIdleViews(s, u);
    LockMoveKeepsLocks(s, s', p);
    SamePhase(s, s', p, u);
    assert ViewOf(s', u) == ViewOf(s, u);
  }

  /** A single-section operation appends at most one entry, of its own thread. */
  lemma SectionAppends(st: Store, a: Section)
    ensures var log := RunSection(st, a).log;
            log == st.log || (log != [] && log == st.log + [log[|log| - 1]] && log[|log| - 1].threadId == a.thread)
  {
  }

  lemma SectionLog(st: Store, a: Section, u: ThreadId)
    requires u != a.thread
    ensures FoldThread(RunSection(st, a).log, u) == FoldThread(st.log, u)
  {
    SectionAppends(st, a);
    var log := RunSection(st, a).log;
    if log != st.log {
      FoldThreadStep(st.log, log[|log| - 1], u);
    }
  }

  /** The folded entry after an update keeps creation time and trail. */
  lemma UpdateKeepsTrail(st: Store, a: Section)
    requires a.Ensure? || a.Retitle? || a.Relabel?
    ensures var before, after := FoldThread(st.log, a.thread), FoldThread(RunSection(st, a).log, a.thread);
            && RowsOf(RunSection(st, a), a.thread) == RowsOf(st, a.thread)
            && (after.None? ==> before.None?)
            && (after.Some? ==> if before.None? then after.value.messageCount.None? && after.value.lastMessageAt.None?
                                else SameTrail(before.value, after.value))
  {
    SectionAppends(st, a);
    FoldIsPerThread(st.log, a.thread);
    var log := RunSection(st, a).log;
    if log != st.log {
      assert log[|log| - 1].Upsert?;
      FoldThreadStep(st.log, log[|log| - 1], a.thread);
    }
  }

  /** What a single-section operation does to its thread keeps the thread's invariant. */
  lemma SectionOwn(st: Store, a: Section, v: View)
    requires ThreadOk(v) && v.phase.Free? && !v.wiped
    requires v.entry == FoldThread(st.log, a.thread) && v.rows == RowsOf(st, a.thread)
    ensures var st' := RunSection(st, a);
            Keeps(v, v.(entry := FoldThread(st'.log, a.thread), rows := RowsOf(st', a.thread)))
  {
    var t := a.thread;
    var st' := RunSection(st, a);
    FoldIsPerThread(st.log, t);
    if a.UpdateMessage? {
      if IndexOf(v.rows, a.id).Some? {
        RowPatched(v, a.id, a.extraMetadata);
      }
    } else if a.Repair? {
      if st'.log != st.log {
        FoldThreadStep(st.log, Stats(t, |v.rows|, LastTime(v.entry, v.rows)), t);
        TrailRepaired(v, v.(entry := FoldThread(st'.log, t)));
      }
    } else {
      UpdateKeepsTrail(st, a);
      if FoldThread(st'.log, t).Some? {
        EntryReplaced(v, FoldThread(st'.log, t).value);
      }
    }
  }

  function AfterSection(s: State, a: Section): State {
    s.(store := RunSection(s.store, a))
  }

  lemma SectionRunsLocks(s: State, p: Pid, a: Section)
    requires LocksOk(s) && CanLock(s, p, a.thread)
    ensures LocksOk(AfterSection(s, a))
  {
    Mover(s, p);
    LockMoveKeepsLocks(s, AfterSection(s, a), p);
  }

  lemma SectionRunsOwn(s: State, p: Pid, a: Section)
    requires LocksOk(s) && CanLock(s, p, a.thread)
    ensures ViewOf(AfterSection(s, a), a.thread) == ViewOf(s, a.thread).(
              entry := FoldThread(RunSection(s.store, a).log, a.thread), rows := RowsOf(RunSection(s.store, a), a.thread))
  {
    Mover(s, p);
  }

  lemma SectionRunsOther(s: State, p: Pid, a: Section, u: ThreadId)
    requires LocksOk(s) && CanLock(s, p, a.thread) && u != a.thread
    ensures ViewOf(AfterSection(s, a), u) == ViewOf(s, u)
  {
    Mover(s, p);
    SectionLog(s.store, a, u);
    Frame(s, AfterSection(s, a), p, a.thread, u);
  }

  lemma SectionRuns(s: State, p: Pid, a: Section, u: ThreadId)
    requires Inv(s) && CanLock(s, p, a.thread)
    ensures LocksOk(AfterSection(s, a)) && Keeps(ViewOf(s, u), ViewOf(AfterSection(s, a), u))
  {
    SectionRunsLocks(s, p, a);
    if u == a.thread {
      SectionRunsOwn(s, p, a);
      Mover(s, p);
      SectionOwn(s.store, a, ViewOf(s, a.thread));
    } else {
      SectionRunsOther(s, p, a, u);
    }
  }

  // ---- Append ------------------------------------------------------------------------------

  lemma AppendLockedStepLocks(s: State, p: Pid, t: ThreadId, m: Message)
    requires LocksOk(s) && PcOf(s, p) == AppendLocked(t, m)
    ensures LocksOk(StepAppendLocked(s, p, t, m))
  {
    Mover(s, p);
    LockMoveKeepsLocks(s, StepAppendLocked(s, p, t, m), p);
  }

  lemma AppendLockedStepOwn(s: State, p: Pid, t: ThreadId, m: Message)
    requires LocksOk(s) && PcOf(s, p) == AppendLocked(t, m)
    ensures ViewOf(StepAppendLocked(s, p, t, m), t) == ViewOf(s, t).(
              phase := if FoldThread(s.store.log, t).Some? then Checked else Free)
  {
    Mover(s, p);
    FoldIsPerThread(s.store.log, t);
  }

  lemma AppendLockedStepOther(s: State, p: Pid, t: ThreadId, m: Message, u: ThreadId)
    requires LocksOk(s) && PcOf(s, p) == AppendLocked(t, m) && u != t
    ensures ViewOf(StepAppendLocked(s, p, t, m), u) == ViewOf(s, u)
  {
    Mover(s, p);
    Frame(s, StepAppendLocked(s, p, t, m), p, t, u);
  }

  lemma AppendLockedStep(s: State, p: Pid, t: ThreadId, m: Message, u: ThreadId)
    requires Inv(s) && PcOf(s, p) == AppendLocked(t, m)
    ensures LocksOk(StepAppendLocked(s, p, t, m)) && Keeps(ViewOf(s, u), ViewOf(StepAppendLocked(s, p, t, m), u))
  {
    AppendLockedStepLocks(s, p, t, m);
    if u == t {
      AppendLockedStepOwn(s, p, t, m);
      Mover(s, p);
      PhaseChange(ViewOf(s, t), if FoldThread(s.store.log, t).Some? then Checked else Free);
    } else {
      AppendLockedStepOther(s, p, t, m, u);
    }
  }

  predicate Repeats(s: State, t: ThreadId, m: Message) {
    IsDeterministicId(m.id) && IndexOf(RowsOf(s.store, t), m.id).Some?
  }

  lemma AppendCheckedStepLocks(s: State, p: Pid, t: ThreadId, m: Message)
    requires LocksOk(s) && PcOf(s, p) == AppendChecked(t, m)
    ensures LocksOk(StepAppendChecked(s, p, t, m))
  {
    Mover(s, p);
    LockMoveKeepsLocks(s, StepAppendChecked(s, p, t, m), p);
  }

  lemma AppendCheckedStepOwn(s: State, p: Pid, t: ThreadId, m: Message)
    requires LocksOk(s) && PcOf(s, p) == AppendChecked(t, m)
    ensures ViewOf(StepAppendChecked(s, p, t, m), t)
         == if Repeats(s, t, m) then ViewOf(s, t).(phase := Free)
            else ViewOf(s, t).(phase := Written(m), rows := RowsOf(s.store, t) + [m])
  {
    Mover(s, p);
  }

  lemma AppendCheckedStepOther(s: State, p: Pid, t: ThreadId, m: Message, u: ThreadId)
    requires LocksOk(s) && PcOf(s, p) == AppendChecked(t, m) && u != t
    ensures ViewOf(StepAppendChecked(s, p, t, m), u) == ViewOf(s, u)
  {
    Mover(s, p);
    Frame(s, StepAppendChecked(s, p, t, m), p, t, u);
  }

  lemma AppendCheckedStep(s: State, p: Pid, t: ThreadId, m: Message, u: ThreadId)
    requires Inv(s) && PcOf(s, p) == AppendChecked(t, m)
    ensures LocksOk(StepAppendChecked(s, p, t, m)) && Keeps(ViewOf(s, u), ViewOf(StepAppendChecked(s, p, t, m), u))
  {
    AppendCheckedStepLocks(s, p, t, m);
    if u == t {
      AppendCheckedStepOwn(s, p, t, m);
      Mover(s, p);
      if Repeats(s, t, m) {
        PhaseChange(ViewOf(s, t), Free);
      } else {
        RowWritten(ViewOf(s, t), m);
      }
    } else {
      AppendCheckedStepOther(s, p, t, m, u);
    }
  }

  lemma FinaliseOther(st: Store, t: ThreadId, m: Message, u: ThreadId)
    ensures var st' := FinaliseAppend(st, t, m);
            && FoldThread(st'.log, u) == (if u == t then ApplyOwn(FoldThread(st.log, t), MessageAppended(t, m.createdAt))
                                          else FoldThread(st.log, u))
            && (st.journal.Some? ==> JournalRows(st'.journal.value, u)
                                     == JournalRows(st.journal.value, u) + if t == u then [Searchable(m)] else [])
  {
    FoldThreadStep(st.log, MessageAppended(t, m.createdAt), u);
    if st.journal.Some? {
      JournalStep(st.journal.value, t, m, u);
    }
  }

  lemma AppendWrittenStepLocks(s: State, p: Pid, t: ThreadId, m: Message)
    requires LocksOk(s) && PcOf(s, p) == AppendWritten(t, m)
    ensures LocksOk(StepAppendWritten(s, p, t, m))
  {
    Mover(s, p);
    LockMoveKeepsLocks(s, StepAppendWritten(s, p, t, m), p);
  }

  lemma AppendWrittenStepOwn(s: State, p: Pid, t: ThreadId, m: Message)
    requires LocksOk(s) && PcOf(s, p) == AppendWritten(t, m)
    ensures ViewOf(StepAppendWritten(s, p, t, m), t) == WithRow(ViewOf(s, t), t, m)
  {
    Mover(s, p);
    FinaliseOther(s.store, t, m, t);
  }

  lemma AppendWrittenStepOther(s: State, p: Pid, t: ThreadId, m: Message, u: ThreadId)
    requires LocksOk(s) && PcOf(s, p) == AppendWritten(t, m) && u != t
    ensures ViewOf(StepAppendWritten(s, p, t, m), u) == ViewOf(s, u)
  {
    Mover(s, p);
    FinaliseOther(s.store, t, m, u);
    Frame(s, StepAppendWritten(s, p, t, m), p, t, u);
  }

  lemma AppendWrittenStep(s: State, p: Pid, t: ThreadId, m: Message, u: ThreadId)
    requires Inv(s) && PcOf(s, p) == AppendWritten(t, m)
    ensures LocksOk(StepAppendWritten(s, p, t, m)) && Keeps(ViewOf(s, u), ViewOf(StepAppendWritten(s, p, t, m), u))
  {
    AppendWrittenStepLocks(s, p, t, m);
    if u == t {
      AppendWrittenStepOwn(s, p, t, m);
      Mover(s, p);
      RowFinalised(ViewOf(s, t), t);
    } else {
      AppendWrittenStepOther(s, p, t, m, u);
    }
  }

  // ---- Truncate ----------------------------------------------------------------------------

  lemma StatsLog(st: Store, t: ThreadId, rows: Rows, u: ThreadId)
    ensures FoldThread(RecordStats(st, t, rows).log, u)
            == if u == t then ApplyOwn(FoldThread(st.log, t), Stats(t, |rows|, LastTime(FoldThread(st.log, t), rows)))
               else FoldThread(st.log, u)
  {
    FoldThreadStep(st.log, Stats(t, |rows|, LastTime(FoldThread(st.log, t), rows)), u);
  }

  lemma TombstoneLog(st: Store, t: ThreadId, at: string, u: ThreadId)
    ensures FoldThread(Tombstone(st, t, at).log, u) == if u == t then None else FoldThread(st.log, u)
    ensures t in Fold(st.log) <==> FoldThread(st.log, t).Some?
  {
    FoldThreadStep(st.log, Delete(t, at), u);
    FoldIsPerThread(st.log, t);
  }

  lemma TruncateStatsStepLocks(s: State, p: Pid, t: ThreadId, kept: Rows)
    requires LocksOk(s) && PcOf(s, p) == TruncateStats(t, kept)
    ensures LocksOk(StepTruncateStats(s, p, t, kept))
  {
    Mover(s, p);
    LockMoveKeepsLocks(s, StepTruncateStats(s, p, t, kept), p);
  }

  lemma TruncateStatsStepOwn(s: State, p: Pid, t: ThreadId, kept: Rows)
    requires LocksOk(s) && PcOf(s, p) == TruncateStats(t, kept)
    ensures ViewOf(StepTruncateStats(s, p, t, kept), t) == ViewOf(s, t).(
              phase := Evicting,
              entry := ApplyOwn(FoldThread(s.store.log, t),
                                Stats(t, |kept|, LastTime(FoldThread(s.store.log, t), kept))))
  {
    Mover(s, p);
    StatsLog(s.store, t, kept, t);
  }

  lemma TruncateStatsStepOther(s: State, p: Pid, t: ThreadId, kept: Rows, u: ThreadId)
    requires LocksOk(s) && PcOf(s, p) == TruncateStats(t, kept) && u != t
    ensures ViewOf(StepTruncateStats(s, p, t, kept), u) == ViewOf(s, u)
  {
    Mover(s, p);
    StatsLog(s.store, t, kept, u);
    Frame(s, StepTruncateStats(s, p, t, kept), p, t, u);
  }

  lemma TruncateStatsStep(s: State, p: Pid, t: ThreadId, kept: Rows, u: ThreadId)
    requires Inv(s) && PcOf(s, p) == TruncateStats(t, kept)
    ensures LocksOk(StepTruncateStats(s, p, t, kept)) && Keeps(ViewOf(s, u), ViewOf(StepTruncateStats(s, p, t, kept), u))
  {
    TruncateStatsStepLocks(s, p, t, kept);
    if u == t {
      TruncateStatsStepOwn(s, p, t, kept);
      Mover(s, p);
      StatsRecorded(ViewOf(s, t), t, kept);
    } else {
      TruncateStatsStepOther(s, p, t, kept, u);
    }
  }

  lemma TruncateEvictStepLocks(s: State, p: Pid, t: ThreadId)
    requires LocksOk(s) && PcOf(s, p) == TruncateEvict(t)
    ensures LocksOk(StepTruncateEvict(s, p, t))
  {
    Mover(s, p);
    LockMoveKeepsLocks(s, StepTruncateEvict(s, p, t), p);
  }

  lemma TruncateEvictStepOwn(s: State, p: Pid, t: ThreadId)
    requires LocksOk(s) && PcOf(s, p) == TruncateEvict(t)
    ensures ViewOf(StepTruncateEvict(s, p, t), t) == AfterEvict(ViewOf(s, t))
  {
    Mover(s, p);
  }

  lemma TruncateEvictStepOther(s: State, p: Pid, t: ThreadId, u: ThreadId)
    requires LocksOk(s) && PcOf(s, p) == TruncateEvict(t) && u != t
    ensures ViewOf(StepTruncateEvict(s, p, t), u) == ViewOf(s, u)
  {
    Mover(s, p);
    Frame(s, StepTruncateEvict(s, p, t), p, t, u);
  }

  lemma TruncateEvictStep(s: State, p: Pid, t: ThreadId, u: ThreadId)
    requires Inv(s) && PcOf(s, p) == TruncateEvict(t)
    ensures LocksOk(StepTruncateEvict(s, p, t)) && Keeps(ViewOf(s, u), ViewOf(StepTruncateEvict(s, p, t), u))
  {
    TruncateEvictStepLocks(s, p, t);
    if u == t {
      TruncateEvictStepOwn(s, p, t);
      Mover(s, p);
      Evicted(ViewOf(s, t));
    } else {
      TruncateEvictStepOther(s, p, t, u);
    }
  }

  // ---- Search and cold build --------------------------------------------------------------

  /** A move of a process that holds no thread lock leaves every thread's phase alone. */
  lemma SamePhase(s: State, s': State, p: Pid, u: ThreadId)
    requires LocksOk(s) && PcOf(s, p).Thread().None? && s'.holder == s.holder
    requires forall q: Pid | q != p :: PcOf(s', q) == PcOf(s, q)
    ensures PhaseOf(s', u) == PhaseOf(s, u)
  {
    assert HolderOk(s, u);
  }

  lemma SearchColdStepLocks(s: State, p: Pid)
    requires LocksOk(s) && PcOf(s, p).SearchCold? && s.builder.None?
    ensures LocksOk(StepSearchCold(s, p))
  {
    Mover(s, p);
    LockMoveKeepsLocks(s, StepSearchCold(s, p), p);
  }

  lemma SearchColdStepView(s: State, p: Pid, u: ThreadId)
    requires LocksOk(s) && PcOf(s, p).SearchCold? && s.builder.None?
    ensures ViewOf(StepSearchCold(s, p), u) == ViewOf(s, u)
  {
    Mover(s, p);
    SamePhase(s, StepSearchCold(s, p), p, u);
  }

  lemma SearchColdStep(s: State, p: Pid, u: ThreadId)
    requires Inv(s) && PcOf(s, p).SearchCold? && s.builder.None?
    ensures LocksOk(StepSearchCold(s, p)) && Keeps(ViewOf(s, u), ViewOf(StepSearchCold(s, p), u))
  {
    SearchColdStepLocks(s, p);
    SearchColdStepView(s, p, u);
  }

  lemma BuildBeginStepLocks(s: State, p: Pid)
    requires LocksOk(s) && PcOf(s, p).BuildBegin?
    ensures LocksOk(StepBuildBegin(s, p))
  {
    Mover(s, p);
    LockMoveKeepsLocks(s, StepBuildBegin(s, p), p);
  }

  lemma BuildBeginStepView(s: State, p: Pid, u: ThreadId)
    requires LocksOk(s) && PcOf(s, p).BuildBegin?
    ensures ViewOf(StepBuildBegin(s, p), u) == ViewOf(s, u).(journal := Some([]), scan := Todo, stale := false)
  {
    Mover(s, p);
    assert JournalRows([], u) == [];
    SamePhase(s, StepBuildBegin(s, p), p, u);
  }

  lemma BuildBeginStep(s: State, p: Pid, u: ThreadId)
    requires Inv(s) && PcOf(s, p).BuildBegin?
    ensures LocksOk(StepBuildBegin(s, p)) && Keeps(ViewOf(s, u), ViewOf(StepBuildBegin(s, p), u))
  {
    BuildBeginStepLocks(s, p);
    BuildBeginStepView(s, p, u);
    Mover(s, p);
    BuildOpened(ViewOf(s, u));
  }

  lemma NotUnlinking(s: State, u: ThreadId)
    requires LocksOk(s) && s.writer.None?
    ensures !ViewOf(s, u).phase.Unlinking?
  {
    assert HolderOk(s, u);
    if u in s.holder {
      assert ProcOk(s, s.holder[u]);
    }
  }

  lemma BuildSnapshotStepLocks(s: State, p: Pid)
    requires LocksOk(s) && PcOf(s, p).BuildSnapshot?
    ensures LocksOk(StepBuildSnapshot(s, p))
  {
    Mover(s, p);
    LockMoveKeepsLocks(s, StepBuildSnapshot(s, p), p);
  }

  lemma BuildSnapshotStepView(s: State, p: Pid, u: ThreadId)
    requires LocksOk(s) && PcOf(s, p).BuildSnapshot?
    ensures ViewOf(StepBuildSnapshot(s, p), u) == ViewOf(s, u).(
              scan := if FoldThread(s.store.log, u).Some? then Todo else Done(map[]))
  {
    Mover(s, p);
    FoldIsPerThread(s.store.log, u);
    SamePhase(s, StepBuildSnapshot(s, p), p, u);
  }

  lemma BuildSnapshotStep(s: State, p: Pid, u: ThreadId)
    requires Inv(s) && PcOf(s, p).BuildSnapshot?
    ensures LocksOk(StepBuildSnapshot(s, p)) && Keeps(ViewOf(s, u), ViewOf(StepBuildSnapshot(s, p), u))
  {
    BuildSnapshotStepLocks(s, p);
    BuildSnapshotStepView(s, p, u);
    Mover(s, p);
    NotUnlinking(s, u);
    SnapshotTaken(ViewOf(s, u));
  }

  lemma FailSnapshotStepLocks(s: State, p: Pid)
    requires LocksOk(s) && PcOf(s, p).BuildSnapshot?
    ensures LocksOk(StepFailSnapshot(s, p))
  {
    Mover(s, p);
    LockMoveKeepsLocks(s, StepFailSnapshot(s, p), p);
  }

  lemma FailSnapshotStepView(s: State, p: Pid, u: ThreadId)
    requires LocksOk(s) && PcOf(s, p).BuildSnapshot?
    ensures ViewOf(StepFailSnapshot(s, p), u) == ViewOf(s, u).(journal := None, scan := NoScan)
  {
    Mover(s, p);
    SamePhase(s, StepFailSnapshot(s, p), p, u);
  }

  lemma FailSnapshotStep(s: State, p: Pid, u: ThreadId)
    requires Inv(s) && PcOf(s, p).BuildSnapshot?
    ensures LocksOk(StepFailSnapshot(s, p)) && Keeps(ViewOf(s, u), ViewOf(StepFailSnapshot(s, p), u))
  {
    FailSnapshotStepLocks(s, p);
    FailSnapshotStepView(s, p, u);
    BuildCancelled(ViewOf(s, u));
  }

  function AfterScan(s: State, p: Pid, t: ThreadId): State
    requires CanScan(s, p, t)
  {
    StepScan(s, p, PcOf(s, p).todo, PcOf(s, p).built, t)
  }

  lemma ScanStepLocks(s: State, p: Pid, t: ThreadId)
    requires LocksOk(s) && CanScan(s, p, t)
    ensures LocksOk(AfterScan(s, p, t))
  {
    Mover(s, p);
    LockMoveKeepsLocks(s, AfterScan(s, p, t), p);
  }

  lemma ScanStepView(s: State, p: Pid, t: ThreadId, u: ThreadId)
    requires LocksOk(s) && CanScan(s, p, t)
    ensures ViewOf(AfterScan(s, p, t), u)
         == if u == t then ViewOf(s, u).(scan := Done(AddRows(map[], RowsOf(s.store, t)))) else ViewOf(s, u)
  {
    Mover(s, p);
    assert ScanOk(PcOf(s, p)) && Of(PcOf(s, p).built, t) == map[];
    SamePhase(s, AfterScan(s, p, t), p, u);
  }

  lemma ScanStep(s: State, p: Pid, t: ThreadId, u: ThreadId)
    requires Inv(s) && CanScan(s, p, t)
    ensures LocksOk(AfterScan(s, p, t)) && Keeps(ViewOf(s, u), ViewOf(AfterScan(s, p, t), u))
  {
    ScanStepLocks(s, p, t);
    ScanStepView(s, p, t, u);
    if u == t {
      Mover(s, p);
      ThreadScanned(ViewOf(s, t));
    }
  }

  lemma PublishStepLocks(s: State, p: Pid)
    requires LocksOk(s) && PcOf(s, p).BuildScan? && PcOf(s, p).todo == {} && s.store.journal.Some?
    ensures LocksOk(StepPublish(s, p, PcOf(s, p).built))
  {
    Mover(s, p);
    LockMoveKeepsLocks(s, StepPublish(s, p, PcOf(s, p).built), p);
  }

  lemma PublishStepView(s: State, p: Pid, u: ThreadId)
    requires LocksOk(s) && PcOf(s, p).BuildScan? && PcOf(s, p).todo == {} && s.store.journal.Some?
    ensures ViewOf(StepPublish(s, p, PcOf(s, p).built), u) == ViewOf(s, u).(
              cached := Some(AddRows(Of(PcOf(s, p).built, u), JournalRows(s.store.journal.value, u))),
              journal := None, scan := NoScan, skipped := 0)
  {
    Mover(s, p);
    DrainIsPerThread(PcOf(s, p).built, s.store.journal.value, u);
    SamePhase(s, StepPublish(s, p, PcOf(s, p).built), p, u);
  }

  lemma PublishStep(s: State, p: Pid, u: ThreadId)
    requires Inv(s) && PcOf(s, p).BuildScan? && PcOf(s, p).todo == {} && s.store.journal.Some?
    ensures LocksOk(StepPublish(s, p, PcOf(s, p).built)) && Keeps(ViewOf(s, u), ViewOf(StepPublish(s, p, PcOf(s, p).built), u))
  {
    PublishStepLocks(s, p);
    PublishStepView(s, p, u);
    Mover(s, p);
    Published(ViewOf(s, u));
  }

  lemma SearchReadyStepLocks(s: State, p: Pid)
    requires LocksOk(s) && PcOf(s, p).SearchReady?
    ensures LocksOk(Goto(s, p, Idle))
  {
    Mover(s, p);
    LockMoveKeepsLocks(s, Goto(s, p, Idle), p);
  }

  lemma SearchReadyStepView(s: State, p: Pid, u: ThreadId)
    requires LocksOk(s) && PcOf(s, p).SearchReady?
    ensures ViewOf(Goto(s, p, Idle), u) == ViewOf(s, u)
  {
    Mover(s, p);
    SamePhase(s, Goto(s, p, Idle), p, u);
  }

  lemma SearchReadyStep(s: State, p: Pid, u: ThreadId)
    requires Inv(s) && PcOf(s, p).SearchReady?
    ensures LocksOk(Goto(s, p, Idle)) && Keeps(ViewOf(s, u), ViewOf(Goto(s, p, Idle), u))
  {
    SearchReadyStepLocks(s, p);
    SearchReadyStepView(s, p, u);
  }

  // ---- Delete and purge -------------------------------------------------------------------

  /** While a write guard is held, no build runs and only the writer can hold a thread lock. */
  lemma WriterAlone(s: State, p: Pid, u: ThreadId)
    requires LocksOk(s) && PcOf(s, p).Writes()
    ensures s.writer == Some(p) && s.builder.None? && s.store.journal.None?
    ensures u in s.holder ==> PcOf(s, p).Thread() == Some(u)
    ensures forall q: Pid | q != p :: PcOf(s, q).Idle?
  {
    assert ProcOk(s, p);
    forall q: Pid | q != p ensures PcOf(s, q).Idle? {
      assert ProcOk(s, q);
    }
    assert HolderOk(s, u);
  }

  lemma DeleteLockedStepLocks(s: State, p: Pid, t: ThreadId, at: string)
    requires LocksOk(s) && PcOf(s, p) == DeleteLocked(t, at)
    ensures LocksOk(StepDeleteLocked(s, p, t, at))
  {
    Mover(s, p);
    WriterAlone(s, p, t);
    LockMoveKeepsLocks(s, StepDeleteLocked(s, p, t, at), p);
  }

  lemma DeleteLockedStepOwn(s: State, p: Pid, t: ThreadId, at: string)
    requires LocksOk(s) && PcOf(s, p) == DeleteLocked(t, at)
    ensures ViewOf(StepDeleteLocked(s, p, t, at), t)
         == if FoldThread(s.store.log, t).Some? then ViewOf(s, t).(phase := Unlinking, entry := None)
            else ViewOf(s, t).(phase := Free)
  {
    Mover(s, p);
    WriterAlone(s, p, t);
    TombstoneLog(s.store, t, at, t);
  }

  lemma DeleteLockedStepOther(s: State, p: Pid, t: ThreadId, at: string, u: ThreadId)
    requires LocksOk(s) && PcOf(s, p) == DeleteLocked(t, at) && u != t
    ensures ViewOf(StepDeleteLocked(s, p, t, at), u) == ViewOf(s, u)
  {
    Mover(s, p);
    WriterAlone(s, p, u);
    TombstoneLog(s.store, t, at, u);
    Frame(s, StepDeleteLocked(s, p, t, at), p, t, u);
  }

  lemma DeleteLockedStep(s: State, p: Pid, t: ThreadId, at: string, u: ThreadId)
    requires Inv(s) && PcOf(s, p) == DeleteLocked(t, at)
    ensures LocksOk(StepDeleteLocked(s, p, t, at)) && Keeps(ViewOf(s, u), ViewOf(StepDeleteLocked(s, p, t, at), u))
  {
    DeleteLockedStepLocks(s, p, t, at);
    if u == t {
      DeleteLockedStepOwn(s, p, t, at);
      Mover(s, p);
      if FoldThread(s.store.log, t).Some? {
        Tombstoned(ViewOf(s, t));
      } else {
        PhaseChange(ViewOf(s, t), Free);
      }
    } else {
      DeleteLockedStepOther(s, p, t, at, u);
    }
  }

  lemma DeleteUnlinkStepLocks(s: State, p: Pid, t: ThreadId)
    requires LocksOk(s) && PcOf(s, p) == DeleteUnlink(t)
    ensures LocksOk(StepDeleteUnlink(s, p, t))
  {
    Mover(s, p);
    WriterAlone(s, p, t);
    LockMoveKeepsLocks(s, StepDeleteUnlink(s, p, t), p);
  }

  lemma DeleteUnlinkStepOwn(s: State, p: Pid, t: ThreadId)
    requires LocksOk(s) && PcOf(s, p) == DeleteUnlink(t)
    ensures ViewOf(StepDeleteUnlink(s, p, t), t) == ViewOf(s, t).(phase := Unlinked, rows := [])
  {
    Mover(s, p);
    WriterAlone(s, p, t);
  }

  lemma DeleteUnlinkStepOther(s: State, p: Pid, t: ThreadId, u: ThreadId)
    requires LocksOk(s) && PcOf(s, p) == DeleteUnlink(t) && u != t
    ensures ViewOf(StepDeleteUnlink(s, p, t), u) == ViewOf(s, u)
  {
    Mover(s, p);
    WriterAlone(s, p, u);
    Frame(s, StepDeleteUnlink(s, p, t), p, t, u);
  }

  lemma DeleteUnlinkStep(s: State, p: Pid, t: ThreadId, u: ThreadId)
    requires Inv(s) && PcOf(s, p) == DeleteUnlink(t)
    ensures LocksOk(StepDeleteUnlink(s, p, t)) && Keeps(ViewOf(s, u), ViewOf(StepDeleteUnlink(s, p, t), u))
  {
    DeleteUnlinkStepLocks(s, p, t);
    if u == t {
      DeleteUnlinkStepOwn(s, p, t);
      Mover(s, p);
      WriterAlone(s, p, t);
      RowsUnlinked(ViewOf(s, t));
    } else {
      DeleteUnlinkStepOther(s, p, t, u);
    }
  }

  lemma DeleteEvictStepLocks(s: State, p: Pid, t: ThreadId)
    requires LocksOk(s) && PcOf(s, p) == DeleteEvict(t)
    ensures LocksOk(StepDeleteEvict(s, p, t))
  {
    Mover(s, p);
    WriterAlone(s, p, t);
    LockMoveKeepsLocks(s, StepDeleteEvict(s, p, t), p);
  }

  lemma DeleteEvictStepOwn(s: State, p: Pid, t: ThreadId)
    requires LocksOk(s) && PcOf(s, p) == DeleteEvict(t)
    ensures ViewOf(StepDeleteEvict(s, p, t), t) == AfterDelete(ViewOf(s, t))
  {
    Mover(s, p);
    WriterAlone(s, p, t);
  }

  lemma DeleteEvictStepOther(s: State, p: Pid, t: ThreadId, u: ThreadId)
    requires LocksOk(s) && PcOf(s, p) == DeleteEvict(t) && u != t
    ensures ViewOf(StepDeleteEvict(s, p, t), u) == ViewOf(s, u)
  {
    Mover(s, p);
    WriterAlone(s, p, u);
    Frame(s, StepDeleteEvict(s, p, t), p, t, u);
  }

  lemma DeleteEvictStep(s: State, p: Pid, t: ThreadId, u: ThreadId)
    requires Inv(s) && PcOf(s, p) == DeleteEvict(t)
    ensures LocksOk(StepDeleteEvict(s, p, t)) && Keeps(ViewOf(s, u), ViewOf(StepDeleteEvict(s, p, t), u))
  {
    DeleteEvictStepLocks(s, p, t);
    if u == t {
      DeleteEvictStepOwn(s, p, t);
      Mover(s, p);
      WriterAlone(s, p, t);
      DeletedThreadEvicted(ViewOf(s, t));
    } else {
      DeleteEvictStepOther(s, p, t, u);
    }
  }

  lemma PurgeLockedStep(s: State, p: Pid, u: ThreadId)
    requires Inv(s) && PcOf(s, p).PurgeLocked?
    ensures LocksOk(StepPurgeLocked(s, p)) && Keeps(ViewOf(s, u), ViewOf(StepPurgeLocked(s, p), u))
  {
    var s' := StepPurgeLocked(s, p);
    Mover(s, p);
    WriterAlone(s, p, u);
    LockMoveKeepsLocks(s, s', p);
    StoreWiped(ViewOf(s, u));
    assert ViewOf(s', u) == ViewOf(s, u).(entry := None, rows := [], wiped := true);
  }

  lemma PurgeEvictStep(s: State, p: Pid, u: ThreadId)
    requires Inv(s) && PcOf(s, p).PurgeEvict?
    ensures LocksOk(StepPurgeEvict(s, p)) && Keeps(ViewOf(s, u), ViewOf(StepPurgeEvict(s, p), u))
  {
    var s' := StepPurgeEvict(s, p);
    Mover(s, p);
    WriterAlone(s, p, u);
    LockMoveKeepsLocks(s, s', p);
    CacheDropped(ViewOf(s, u));
    assert ViewOf(s', u) == ViewOf(s, u).(cached := None, skipped := 0, stale := false, wiped := false);
  }
}
