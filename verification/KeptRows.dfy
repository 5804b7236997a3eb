/** After a truncation in a run: whether the rows it kept are still found. */
module KeptRows {
  import opened Wrappers
  import opened Types
  import opened ThreadLog
  import opened Transcript
  import opened StoreState
  import opened StoreProtocol
  import opened StoreSafety
  import opened StoreViews
  import opened StoreTheorems
  import opened CutDuringBuild
  import opened WarmTruncation

  // ---- From the eviction on -------------------------------------------------------------------

  /** The process truncates or deletes `t`, or purges. */
  predicate Disturbs(pc: Pc, t: ThreadId) {
    || ((Truncates(pc) || pc.DeleteLocked? || pc.DeleteUnlink? || pc.DeleteEvict?) && pc.thread == t)
    || pc.PurgeLocked? || pc.PurgeEvict?
  }

  /** The action starts that. */
  predicate StartsToDisturb(a: Action, t: ThreadId) {
    a.Purge? || ((a.Truncate? || a.DeleteThread?) && a.thread == t)
  }

  ghost predicate Undisturbed(s: State, t: ThreadId) {
    forall q: Pid :: !Disturbs(PcOf(s, q), t)
  }

  lemma AdvanceDisturbs(s: State, p: Pid, s': State, t: ThreadId)
    requires Continue(s, p) == Some(s') && !Disturbs(PcOf(s, p), t)
    ensures !Disturbs(PcOf(s', p), t)
  {
  }

  lemma StepStaysUndisturbed(s: State, p: Pid, a: Action, s': State, t: ThreadId)
    requires Next(s, p, a) == Some(s') && Undisturbed(s, t) && !StartsToDisturb(a, t)
    ensures Undisturbed(s', t)
  {
    if a.Advance? {
      AdvanceMovesOne(s, p, s');
      AdvanceDisturbs(s, p, s', t);
    } else {
      assert forall q: Pid | q != p :: PcOf(s', q) == PcOf(s, q);
    }
  }

  /** No rows of `t` are left out of a warm index. */
  predicate NothingSkipped(s: State, t: ThreadId) {
    s.store.cache.Some? ==> Skipped(s, t) == 0
  }

  lemma AdvanceSkipsNothing(s: State, p: Pid, s': State, t: ThreadId)
    requires Continue(s, p) == Some(s') && NothingSkipped(s, t) && !Disturbs(PcOf(s, p), t)
    ensures NothingSkipped(s', t)
  {
  }

  lemma StepSkipsNothing(s: State, p: Pid, a: Action, s': State, t: ThreadId)
    requires Next(s, p, a) == Some(s') && NothingSkipped(s, t) && Undisturbed(s, t)
    ensures NothingSkipped(s', t)
  {
    if a.Advance? {
      AdvanceSkipsNothing(s, p, s', t);
    }
  }

  /** A finalised row of `t` has this id. */
  predicate InFinal(v: View, x: MessageId) {
    IndexOf(Final(v), x).Some?
  }

  lemma InFinalPhase(v: View, w: View, x: MessageId)
    requires InFinal(v, x) && Final(w) == Final(v)
    ensures InFinal(w, x)
  {
  }

  lemma InFinalMore(rows: Rows, m: Message, x: MessageId)
    requires IndexOf(rows, x).Some?
    ensures IndexOf(rows + [m], x).Some?
  {
    IndexOfNoneIff(rows + [m], x);
    assert (rows + [m])[IndexOf(rows, x).value].id == x;
  }

  lemma AppendOwnKeepsFinal(s: State, p: Pid, s': State, t: ThreadId, x: MessageId)
    requires Inv(s) && Continue(s, p) == Some(s') && InFinal(ViewOf(s, t), x)
    requires PcOf(s, p).AppendLocked? || PcOf(s, p).AppendChecked?
    requires PcOf(s, p).thread == t
    ensures InFinal(ViewOf(s', t), x)
  {
    var m := PcOf(s, p).msg;
    Mover(s, p);
    if PcOf(s, p).AppendLocked? {
      AppendLockedStepOwn(s, p, t, m);
      InFinalPhase(ViewOf(s, t), ViewOf(s', t), x);
    } else {
      AppendCheckedStepOwn(s, p, t, m);
      var rows := RowsOf(s.store, t);
      assert (rows + [m])[..|rows|] == rows;
      InFinalPhase(ViewOf(s, t), ViewOf(s', t), x);
    }
  }

  lemma FinalisingKeepsFinal(v: View, t: ThreadId, x: MessageId)
    requires ThreadOk(v) && v.phase.Written? && InFinal(v, x)
    ensures InFinal(WithRow(v, t, v.phase.msg), x)
  {
    FinalGrows(v, t);
    InFinalMore(Final(v), Searchable(v.phase.msg), x);
  }

  lemma WrittenKeepsFinal(s: State, p: Pid, s': State, t: ThreadId, x: MessageId)
    requires Inv(s) && Continue(s, p) == Some(s') && InFinal(ViewOf(s, t), x)
    requires PcOf(s, p).AppendWritten? && PcOf(s, p).thread == t
    ensures InFinal(ViewOf(s', t), x)
  {
    Mover(s, p);
    assert ThreadOk(ViewOf(s, t));
    AppendWrittenStepOwn(s, p, t, PcOf(s, p).msg);
    FinalisingKeepsFinal(ViewOf(s, t), t, x);
  }

  lemma AppendOtherKeepsFinal(s: State, p: Pid, s': State, t: ThreadId)
    requires Inv(s) && Continue(s, p) == Some(s')
    requires PcOf(s, p).AppendLocked? || PcOf(s, p).AppendChecked? || PcOf(s, p).AppendWritten?
    requires PcOf(s, p).thread != t
    ensures ViewOf(s', t) == ViewOf(s, t)
  {
    var pc := PcOf(s, p);
    if pc.AppendLocked? {
      AppendLockedStepOther(s, p, pc.thread, pc.msg, t);
    } else if pc.AppendChecked? {
      AppendCheckedStepOther(s, p, pc.thread, pc.msg, t);
    } else {
      AppendWrittenStepOther(s, p, pc.thread, pc.msg, t);
    }
  }

  lemma TruncateKeepsFinal(s: State, p: Pid, s': State, t: ThreadId)
    requires Inv(s) && Continue(s, p) == Some(s') && Truncates(PcOf(s, p)) && PcOf(s, p).thread != t
    ensures ViewOf(s', t) == ViewOf(s, t)
  {
    var pc := PcOf(s, p);
    if pc.TruncateStats? {
      TruncateStatsStepOther(s, p, pc.thread, pc.kept, t);
    } else {
      TruncateEvictStepOther(s, p, pc.thread, t);
    }
  }

  lemma DeleteKeepsFinal(s: State, p: Pid, s': State, t: ThreadId)
    requires Inv(s) && Continue(s, p) == Some(s') && PcOf(s, p).Writes() && !Disturbs(PcOf(s, p), t)
    ensures ViewOf(s', t) == ViewOf(s, t)
  {
    var pc := PcOf(s, p);
    if pc.DeleteLocked? {
      DeleteLockedStepOther(s, p, pc.thread, pc.at, t);
    } else if pc.DeleteUnlink? {
      DeleteUnlinkStepOther(s, p, pc.thread, t);
    } else {
      DeleteEvictStepOther(s, p, pc.thread, t);
    }
  }

  lemma SearchKeepsFinal(s: State, p: Pid, s': State, t: ThreadId)
    requires Inv(s) && Continue(s, p) == Some(s') && PcOf(s, p).Thread().None? && !PcOf(s, p).Writes()
    ensures Final(ViewOf(s', t)) == Final(ViewOf(s, t))
  {
    Mover(s, p);
    match PcOf(s, p)
    case SearchCold => SearchColdStepView(s, p, t);
    case BuildBegin => BuildBeginStepView(s, p, t);
    case BuildSnapshot => BuildSnapshotStepView(s, p, t);
    case BuildScan(_, _) => PublishStepView(s, p, t);
    case SearchReady => SearchReadyStepView(s, p, t);
  }

  lemma AdvanceKeepsFinal(s: State, p: Pid, s': State, t: ThreadId, x: MessageId)
    requires Inv(s) && Continue(s, p) == Some(s') && InFinal(ViewOf(s, t), x) && !Disturbs(PcOf(s, p), t)
    ensures InFinal(ViewOf(s', t), x)
  {
    var pc := PcOf(s, p);
    if pc.Writes() {
      DeleteKeepsFinal(s, p, s', t);
    } else if pc.Thread().None? {
      SearchKeepsFinal(s, p, s', t);
    } else if Truncates(pc) {
      TruncateKeepsFinal(s, p, s', t);
    } else if pc.thread != t {
      AppendOtherKeepsFinal(s, p, s', t);
    } else if pc.AppendWritten? {
      WrittenKeepsFinal(s, p, s', t, x);
    } else {
      AppendOwnKeepsFinal(s, p, s', t, x);
    }
  }

  lemma SectionKeepsFinal(s: State, p: Pid, op: Section, t: ThreadId)
    requires Inv(s) && CanLock(s, p, op.thread)
    ensures Final(ViewOf(AfterSection(s, op), t)) == Final(ViewOf(s, t))
  {
    if op.thread != t {
      SectionRunsOther(s, p, op, t);
    } else {
      SectionRunsOwn(s, p, op);
      if op.UpdateMessage? {
        PatchKeepsSearchable(RowsOf(s.store, t), op.id, op.extraMetadata);
      }
    }
  }

  lemma StartKeepsFinal(s: State, p: Pid, a: Action, s': State, t: ThreadId)
    requires Inv(s) && Next(s, p, a) == Some(s') && !a.Advance? && !StartsToDisturb(a, t)
    ensures Final(ViewOf(s', t)) == Final(ViewOf(s, t))
  {
    Mover(s, p);
    match a
    case Append(u, m) => if u == t { AppendStartsOwn(s, p, u, m); } else { AppendStartsOther(s, p, u, m, t); }
    case Truncate(u, id) =>
      if IndexOf(RowsOf(s.store, u), id).Some? {
        TruncateStartsOther(s, p, u, id, IndexOf(RowsOf(s.store, u), id).value, t);
      }
    case Search => SamePhase(s, s', p, t);
    case DeleteThread(u, at) => DeleteStartsOther(s, p, u, at, t);
    case Run(op) => SectionKeepsFinal(s, p, op, t);
    case Scan(u) => ScanStepView(s, p, u, t);
    case FailSnapshot => FailSnapshotStepView(s, p, t);
  }

  lemma StepKeepsFinal(s: State, p: Pid, a: Action, s': State, t: ThreadId, x: MessageId)
    requires Inv(s) && Next(s, p, a) == Some(s') && InFinal(ViewOf(s, t), x)
    requires Undisturbed(s, t) && !StartsToDisturb(a, t)
    ensures InFinal(ViewOf(s', t), x)
  {
    if a.Advance? {
      AdvanceKeepsFinal(s, p, s', t, x);
    } else {
      StartKeepsFinal(s, p, a, s', t);
    }
  }

  /** No truncation or delete of `t` and no purge starts from step `k` to step `n`. */
  ghost predicate NotDisturbed(schedule: Schedule, k: nat, n: nat, t: ThreadId)
    requires k <= n <= |schedule|
  {
    forall j | k <= j < n :: !StartsToDisturb(schedule[j].1, t)
  }

  /** What stays true of `t` after a truncation that ended on a cold index. */
  ghost predicate Sound(s: State, t: ThreadId, x: MessageId) {
    Undisturbed(s, t) && NothingSkipped(s, t) && InFinal(ViewOf(s, t), x)
  }

  lemma {:induction false} RunStaysSound(run: seq<State>, schedule: Schedule, k: nat, n: nat, t: ThreadId, x: MessageId)
    requires IsRun(run, schedule) && k <= n < |run| && NotDisturbed(schedule, k, n, t) && Sound(run[k], t, x)
    ensures Sound(run[n], t, x)
  {
    if k < n {
      RunStaysSound(run, schedule, k, n - 1, t, x);
      SoundStep(run, schedule, n - 1, t, x);
    }
  }

  lemma SoundStep(run: seq<State>, schedule: Schedule, j: nat, t: ThreadId, x: MessageId)
    requires IsRun(run, schedule) && j < |schedule| && Sound(run[j], t, x) && !StartsToDisturb(schedule[j].1, t)
    ensures Sound(run[j + 1], t, x)
  {
    RunKeepsInv(run, schedule, j);
    StepStaysUndisturbed(run[j], schedule[j].0, schedule[j].1, run[j + 1], t);
    StepSkipsNothing(run[j], schedule[j].0, schedule[j].1, run[j + 1], t);
    StepKeepsFinal(run[j], schedule[j].0, schedule[j].1, run[j + 1], t, x);
  }

  /** While a truncation evicts, no one else disturbs the thread, and afterwards no one does. */
  lemma EvictionLeavesUndisturbed(s: State, p: Pid, t: ThreadId, s': State)
    requires Inv(s) && PcOf(s, p) == TruncateEvict(t) && s' == StepTruncateEvict(s, p, t)
    ensures Undisturbed(s', t)
  {
    Mover(s, p);
    forall q: Pid ensures !Disturbs(PcOf(s', q), t) {
      assert ProcOk(s, q);
    }
  }

  /** An eviction that ends a truncation on a cold index. */
  lemma ColdEvictionIsSound(s: State, p: Pid, t: ThreadId, s': State, x: MessageId)
    requires Inv(s) && PcOf(s, p) == TruncateEvict(t) && s.store.cache.None? && s' == StepTruncateEvict(s, p, t)
    requires IndexOf(RowsOf(s.store, t), x).Some?
    ensures Sound(s', t, x)
  {
    EvictionLeavesUndisturbed(s, p, t, s');
    TruncateEvictStepOwn(s, p, t);
    IndexOfSearchable(RowsOf(s.store, t), x);
    EvictingIsFinal(s, p, t);
  }

  lemma EvictingIsFinal(s: State, p: Pid, t: ThreadId)
    requires Inv(s) && PcOf(s, p) == TruncateEvict(t)
    ensures Final(AfterEvict(ViewOf(s, t))) == SearchableRows(RowsOf(s.store, t))
  {
    Mover(s, p);
  }

  lemma UndisturbedIsSettled(s: State, t: ThreadId)
    requires LocksOk(s) && Undisturbed(s, t)
    ensures Settled(ViewOf(s, t))
  {
    assert HolderOk(s, t);
  }

  lemma ColdEvictionKeeps(run: seq<State>, schedule: Schedule, e: nat, n: nat, p: Pid, t: ThreadId, x: MessageId)
    requires IsRun(run, schedule) && e < n < |run|
    requires schedule[e] == (p, Advance) && PcOf(run[e], p) == TruncateEvict(t) && run[e].store.cache.None?
    requires NotDisturbed(schedule, e + 1, n, t) && run[n].store.cache.Some?
    requires IndexOf(RowsOf(run[e].store, t), x).Some?
    ensures x in Of(run[n].store.cache.value, t)
  {
    RunKeepsInv(run, schedule, e);
    assert IsStep(run, schedule, e);
    ColdEvictionIsSound(run[e], p, t, run[e + 1], x);
    RunStaysSound(run, schedule, e + 1, n, t, x);
    RunKeepsInv(run, schedule, n);
    UndisturbedIsSettled(run[n], t);
    var final := FinalRows(run[n], t);
    NothingFinalisedIsMissed(run, schedule, n, t, IndexOf(final, x).value);
  }

  /** The exact condition, in every run. A truncation of `t` ends at step `e` keeping some rows.
      Later the index is warm, `t` has not been truncated again or deleted, nothing was purged and
      no kept id was appended again. Then all kept rows are indexed if and only if the index was
      cold when the truncation evicted the thread, or no row was kept. */
  lemma KeptRowsIndexedIff(run: seq<State>, schedule: Schedule, e: nat, n: nat, p: Pid, t: ThreadId)
    requires IsRun(run, schedule) && e < n < |run|
    requires schedule[e] == (p, Advance) && PcOf(run[e], p) == TruncateEvict(t)
    requires NotDisturbed(schedule, e + 1, n, t) && run[n].store.cache.Some?
    requires forall i | 0 <= i < |RowsOf(run[e].store, t)| ::
               RowsOf(run[e].store, t)[i].id !in AppendedIn(schedule, e + 1, n, t)
    ensures AllIndexed(RowsOf(run[e].store, t), Of(run[n].store.cache.value, t))
       <==> run[e].store.cache.None? || RowsOf(run[e].store, t) == []
  {
    var kept := RowsOf(run[e].store, t);
    if run[e].store.cache.None? {
      forall i | 0 <= i < |kept| ensures kept[i].id in Of(run[n].store.cache.value, t) {
        IndexOfNoneIff(kept, kept[i].id);
        ColdEvictionKeeps(run, schedule, e, n, p, t, kept[i].id);
      }
    } else {
      WarmTruncationForgetsKept(run, schedule, e, n, t, p);
      assert kept != [] ==> kept[0].id !in Of(run[n].store.cache.value, t);
    }
  }

  // ---- From the call on -----------------------------------------------------------------------

  /** The index is cold and no running build has got past `t`: what a caller can check. */
  predicate ColdAndUnscanned(s: State, t: ThreadId) {
    s.store.cache.None?
    && (s.builder.Some? && PcOf(s, s.builder.value).BuildScan? ==> t in PcOf(s, s.builder.value).todo)
  }

  predicate Truncating(pc: Pc, t: ThreadId) {
    Truncates(pc) && pc.thread == t
  }

  lemma ScanKeepsGuard(s: State, p: Pid, q: Pid, u: ThreadId, s': State, t: ThreadId)
    requires Inv(s) && Next(s, q, Scan(u)) == Some(s') && Truncating(PcOf(s, p), t) && ColdAndUnscanned(s, t)
    ensures ColdAndUnscanned(s', t)
  {
    Mover(s, p);
    Mover(s, q);
  }

  lemma AdvanceKeepsGuard(s: State, p: Pid, q: Pid, s': State, t: ThreadId)
    requires Inv(s) && Continue(s, q) == Some(s') && Truncating(PcOf(s, p), t) && ColdAndUnscanned(s, t)
    ensures ColdAndUnscanned(s', t)
  {
    Mover(s, p);
    Mover(s, q);
    if PcOf(s, q).BuildSnapshot? {
      assert ThreadOk(ViewOf(s, t));
      FoldIsPerThread(s.store.log, t);
    } else {
      OtherAdvanceKeepsGuard(s, q, s', t);
    }
  }

  lemma OtherAdvanceKeepsGuard(s: State, q: Pid, s': State, t: ThreadId)
    requires LocksOk(s) && Continue(s, q) == Some(s') && !PcOf(s, q).BuildSnapshot? && ColdAndUnscanned(s, t)
    ensures ColdAndUnscanned(s', t)
  {
    Mover(s, q);
    AdvanceMovesOne(s, q, s');
  }

  /** While a process truncates `t`, a build cannot get past `t`, and so cannot publish. */
  lemma StepKeepsGuard(s: State, p: Pid, q: Pid, a: Action, s': State, t: ThreadId)
    requires Inv(s) && Next(s, q, a) == Some(s') && Truncating(PcOf(s, p), t) && ColdAndUnscanned(s, t)
    ensures ColdAndUnscanned(s', t)
  {
    if a.Advance? {
      AdvanceKeepsGuard(s, p, q, s', t);
    } else if a.Scan? {
      ScanKeepsGuard(s, p, q, a.thread, s', t);
    } else {
      Mover(s, q);
    }
  }

  /** Warm stays warm under a truncation: purge is kept out. */
  lemma StepKeepsWarm(s: State, p: Pid, q: Pid, a: Action, s': State, t: ThreadId)
    requires Inv(s) && Next(s, q, a) == Some(s') && Truncating(PcOf(s, p), t) && s.store.cache.Some?
    ensures s'.store.cache.Some?
  {
    Mover(s, p);
    Mover(s, q);
  }

  /** Process `p` truncates `t` from step `k` to step `e`. */
  ghost predicate TruncatingFrom(run: seq<State>, p: Pid, t: ThreadId, k: nat, e: nat)
    requires k <= e < |run|
  {
    forall j | k <= j <= e :: Truncating(PcOf(run[j], p), t)
  }

  lemma {:induction false} GuardHolds(run: seq<State>, schedule: Schedule, k: nat, e: nat, p: Pid, t: ThreadId)
    requires IsRun(run, schedule) && k <= e < |run| && TruncatingFrom(run, p, t, k, e)
    ensures ColdAndUnscanned(run[k], t) ==> ColdAndUnscanned(run[e], t)
    ensures run[k].store.cache.Some? ==> run[e].store.cache.Some?
  {
    if k < e {
      GuardHolds(run, schedule, k, e - 1, p, t);
      RunKeepsInv(run, schedule, e - 1);
      var (q, a) := schedule[e - 1];
      if ColdAndUnscanned(run[e - 1], t) {
        StepKeepsGuard(run[e - 1], p, q, a, run[e], t);
      }
      if run[e - 1].store.cache.Some? {
        StepKeepsWarm(run[e - 1], p, q, a, run[e], t);
      }
    }
  }

  /** For the caller. The truncation starts at step `k` and ends at step `e`. If at the call the
      index is cold and no build has got past `t`, the next warm index has all kept rows; if it is
      warm, it has them only if none was kept. (Cold with a build past `t`, either can happen.) */
  lemma GuardKeepsRows(run: seq<State>, schedule: Schedule, k: nat, e: nat, n: nat, p: Pid, t: ThreadId, id: MessageId)
    requires IsRun(run, schedule) && k < e < n < |run| && schedule[k] == (p, Truncate(t, id))
    requires TruncatingFrom(run, p, t, k + 1, e)
    requires schedule[e] == (p, Advance) && PcOf(run[e], p) == TruncateEvict(t)
    requires NotDisturbed(schedule, e + 1, n, t) && run[n].store.cache.Some?
    requires forall i | 0 <= i < |RowsOf(run[e].store, t)| ::
               RowsOf(run[e].store, t)[i].id !in AppendedIn(schedule, e + 1, n, t)
    ensures ColdAndUnscanned(run[k], t) ==> AllIndexed(RowsOf(run[e].store, t), Of(run[n].store.cache.value, t))
    ensures run[k].store.cache.Some? ==>
              (AllIndexed(RowsOf(run[e].store, t), Of(run[n].store.cache.value, t)) <==> RowsOf(run[e].store, t) == [])
  {
    CallKeepsGuard(run, schedule, k, p, t, id);
    GuardHolds(run, schedule, k + 1, e, p, t);
    KeptRowsIndexedIff(run, schedule, e, n, p, t);
  }

  lemma CallKeepsGuard(run: seq<State>, schedule: Schedule, k: nat, p: Pid, t: ThreadId, id: MessageId)
    requires IsRun(run, schedule) && k < |schedule| && schedule[k] == (p, Truncate(t, id))
    ensures ColdAndUnscanned(run[k], t) ==> ColdAndUnscanned(run[k + 1], t)
    ensures run[k].store.cache == run[k + 1].store.cache
  {
    RunKeepsInv(run, schedule, k);
    Mover(run[k], p);
    assert IsStep(run, schedule, k);
  }
}
