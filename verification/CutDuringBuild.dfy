/** A thread is cut while a cold build is under way: exactly when the published index is wrong. */
module CutDuringBuild {
  import opened Wrappers
  import opened Types
  import opened ThreadLog
  import opened Transcript
  import opened StoreState
  import opened StoreProtocol
  import opened StoreSafety
  import opened StoreViews
  import opened StoreTheorems
  import opened TruncationSafety

  /** At the cut: publishing would still give the index of the kept rows exactly if the cut spares
      the build. */
  lemma CutMeetsBuild(s: State, p: Pid, t: ThreadId, id: MessageId)
    requires Inv(s) && CanLock(s, p, t) && IndexOf(RowsOf(s.store, t), id).Some?
    requires s.store.journal.Some? && t !in s.stale
    ensures var s' := StartTruncate(s, p, t, id);
            && s'.store.journal.Some?
            && (WouldPublish(ViewOf(s', t)) == FirstOf(RowsOf(s'.store, t)) <==> !CutsBuild(s, t, id))
            && (OnlyIdsOf(WouldPublish(ViewOf(s', t)), RowsOf(s'.store, t)) <==> !CutsBuild(s, t, id))
            && (t in s'.stale <==> CutsBuild(s, t, id))
  {
    var k := IndexOf(RowsOf(s.store, t), id).value;
    assert ThreadOk(ViewOf(s, t));
    TruncateStartsOwn(s, p, t, id, k);
    CutHurtsIff(ViewOf(s, t), k, id);
    assert CutHurts(ViewOf(s, t), k) == CutsBuild(s, t, id);
  }

  // ---- A removed row the build holds --------------------------------------------------------

  /** The build has scanned or journaled a row with this id. */
  predicate Holds(v: View, x: MessageId) {
    v.journal.Some? && ((v.scan.Done? && x in v.scan.built) || exists m | m in v.journal.value :: m.id == x)
  }

  /** ... and the transcript has none. */
  predicate HoldsRemoved(v: View, x: MessageId) {
    Holds(v, x) && IndexOf(v.rows, x).None?
  }

  lemma HoldsRemovedIs(v: View, x: MessageId)
    requires v.journal.Some?
    ensures HoldsRemoved(v, x) <==> x in WouldPublish(v) && IndexOf(v.rows, x).None?
  {
    IndexOfExact(v.rows, x);
    AddRowsKeys(map[], v.rows);
    AddRowsKeys(if v.scan.Done? then v.scan.built else AddRows(map[], v.rows), v.journal.value);
  }

  /** The build holds a removed row, and no append under way will bring its id back. */
  ghost predicate Tainted(s: State, t: ThreadId, x: MessageId) {
    HoldsRemoved(ViewOf(s, t), x) && NotAppending(s, t, x)
  }

  /** No append of `x` to `t` is under way. */
  ghost predicate NotAppending(s: State, t: ThreadId, x: MessageId) {
    forall q: Pid :: AppendsTo(PcOf(s, q), t) ==> PcOf(s, q).msg.id != x
  }

  lemma PrefixLacks(rows: Rows, k: nat, x: MessageId)
    requires k <= |rows| && IndexOf(rows, x).None?
    ensures IndexOf(rows[..k], x).None?
  {
    IndexOfNoneIff(rows, x);
    IndexOfNoneIff(rows[..k], x);
  }

  lemma MoreRowsLack(rows: Rows, m: Message, x: MessageId)
    requires IndexOf(rows, x).None? && m.id != x
    ensures IndexOf(rows + [m], x).None?
  {
    IndexOfNoneIff(rows, x);
    IndexOfNoneIff(rows + [m], x);
  }

  lemma PatchKeepsIds(rows: Rows, id: MessageId, extraMetadata: Option<string>, x: MessageId)
    ensures IndexOf(Patched(rows, id, extraMetadata), x) == IndexOf(rows, x)
  {
    PatchKeepsSearchable(rows, id, extraMetadata);
    IndexOfSearchable(Patched(rows, id, extraMetadata), x);
    IndexOfSearchable(rows, x);
  }

  /** A running build keeps delete and purge out. */
  lemma BuildExcludesWriter(s: State, p: Pid)
    requires LocksOk(s) && s.builder.Some?
    ensures s.writer.None? && !AllIdle(s) && !PcOf(s, p).Writes()
  {
    assert ProcOk(s, s.builder.value) && ProcOk(s, p);
  }

  lemma SectionHolds(s: State, p: Pid, op: Section, t: ThreadId, x: MessageId)
    requires Inv(s) && CanLock(s, p, op.thread) && HoldsRemoved(ViewOf(s, t), x)
    ensures HoldsRemoved(ViewOf(AfterSection(s, op), t), x)
  {
    if op.thread != t {
      SectionRunsOther(s, p, op, t);
    } else {
      SectionRunsOwn(s, p, op);
      if op.UpdateMessage? {
        PatchKeepsIds(RowsOf(s.store, t), op.id, op.extraMetadata, x);
      }
    }
  }

  lemma CutHolds(s: State, p: Pid, u: ThreadId, id: MessageId, t: ThreadId, x: MessageId)
    requires Inv(s) && CanLock(s, p, u) && HoldsRemoved(ViewOf(s, t), x)
    ensures HoldsRemoved(ViewOf(StartTruncate(s, p, u, id), t), x)
  {
    var cut := IndexOf(RowsOf(s.store, u), id);
    if cut.Some? {
      if u == t {
        assert ThreadOk(ViewOf(s, t));
        TruncateStartsOwn(s, p, t, id, cut.value);
        PrefixLacks(RowsOf(s.store, t), cut.value, x);
      } else {
        TruncateStartsOther(s, p, u, id, cut.value, t);
      }
    }
  }

  lemma StartHolds(s: State, p: Pid, a: Action, s': State, t: ThreadId, x: MessageId)
    requires Inv(s) && Next(s, p, a) == Some(s') && !a.Advance?
    requires HoldsRemoved(ViewOf(s, t), x) && s'.store.journal.Some?
    ensures HoldsRemoved(ViewOf(s', t), x)
  {
    BuildExcludesWriter(s, p);
    Mover(s, p);
    match a
    case Append(u, m) => if u == t { AppendStartsOwn(s, p, u, m); } else { AppendStartsOther(s, p, u, m, t); }
    case Truncate(u, id) => CutHolds(s, p, u, id, t, x);
    case Search => SamePhase(s, s', p, t);
    case Run(op) => SectionHolds(s, p, op, t, x);
    case Scan(u) => ScanStepView(s, p, u, t);
    case FailSnapshot =>
  }

  lemma AppendHolds(s: State, p: Pid, s': State, t: ThreadId, x: MessageId)
    requires Inv(s) && Continue(s, p) == Some(s') && HoldsRemoved(ViewOf(s, t), x)
    requires PcOf(s, p).AppendLocked? || PcOf(s, p).AppendChecked? || PcOf(s, p).AppendWritten?
    requires PcOf(s, p).thread == t ==> PcOf(s, p).msg.id != x
    ensures HoldsRemoved(ViewOf(s', t), x)
  {
    var pc := PcOf(s, p);
    var u, m := pc.thread, pc.msg;
    if u != t {
      if pc.AppendLocked? { AppendLockedStepOther(s, p, u, m, t); }
      else if pc.AppendChecked? { AppendCheckedStepOther(s, p, u, m, t); }
      else { AppendWrittenStepOther(s, p, u, m, t); }
    } else if pc.AppendLocked? {
      AppendLockedStepOwn(s, p, t, m);
    } else if pc.AppendChecked? {
      AppendCheckedStepOwn(s, p, t, m);
      MoreRowsLack(RowsOf(s.store, t), m, x);
    } else {
      AppendWrittenStepOwn(s, p, t, m);
      var before, after := JournalRows(s.store.journal.value, t), ViewOf(s', t).journal.value;
      assert after == before + [Searchable(m)];
      assert forall r | r in before :: r in after;
    }
  }

  lemma TruncateHolds(s: State, p: Pid, s': State, t: ThreadId, x: MessageId)
    requires Inv(s) && Continue(s, p) == Some(s') && HoldsRemoved(ViewOf(s, t), x)
    requires PcOf(s, p).TruncateStats? || PcOf(s, p).TruncateEvict?
    ensures HoldsRemoved(ViewOf(s', t), x)
  {
    var pc := PcOf(s, p);
    assert ThreadOk(ViewOf(s, t));
    if pc.TruncateStats? {
      if pc.thread == t { TruncateStatsStepOwn(s, p, t, pc.kept); }
      else { TruncateStatsStepOther(s, p, pc.thread, pc.kept, t); }
    } else {
      if pc.thread == t { TruncateEvictStepOwn(s, p, t); } else { TruncateEvictStepOther(s, p, pc.thread, t); }
    }
  }

  lemma SearchHolds(s: State, p: Pid, s': State, t: ThreadId, x: MessageId)
    requires Inv(s) && Continue(s, p) == Some(s') && PcOf(s, p).Thread().None? && !PcOf(s, p).Writes()
    requires HoldsRemoved(ViewOf(s, t), x) && s'.store.journal.Some?
    ensures HoldsRemoved(ViewOf(s', t), x)
  {
    Mover(s, p);
    assert ThreadOk(ViewOf(s, t));
    match PcOf(s, p)
    case SearchCold => SearchColdStepView(s, p, t);
    case BuildSnapshot => BuildSnapshotStepView(s, p, t);
    case SearchReady => SearchReadyStepView(s, p, t);
    case _ =>
  }

  lemma AdvanceHolds(s: State, p: Pid, s': State, t: ThreadId, x: MessageId)
    requires Inv(s) && Continue(s, p) == Some(s') && HoldsRemoved(ViewOf(s, t), x) && s'.store.journal.Some?
    requires AppendsTo(PcOf(s, p), t) ==> PcOf(s, p).msg.id != x
    ensures HoldsRemoved(ViewOf(s', t), x)
  {
    BuildExcludesWriter(s, p);
    var pc := PcOf(s, p);
    if pc.Thread().None? {
      SearchHolds(s, p, s', t, x);
    } else if pc.TruncateStats? || pc.TruncateEvict? {
      TruncateHolds(s, p, s', t, x);
    } else {
      AppendHolds(s, p, s', t, x);
    }
  }

  lemma StepKeepsNotAppending(s: State, p: Pid, a: Action, s': State, t: ThreadId, x: MessageId)
    requires Next(s, p, a) == Some(s') && NotAppending(s, t, x) && x !in AppendedBy(a, t) && !PcOf(s, p).Writes()
    ensures NotAppending(s', t, x)
  {
    if a.Advance? {
      AdvanceMovesOne(s, p, s');
      AdvanceGoesTo(s, p, s', t);
    } else {
      assert forall q: Pid | q != p :: PcOf(s', q) == PcOf(s, q);
    }
  }

  /** A taint survives every step that does not start an append of that very id to the thread:
      other appends, further cuts and updates of the thread included. */
  lemma StepStaysTainted(s: State, p: Pid, a: Action, s': State, t: ThreadId, x: MessageId)
    requires Inv(s) && Next(s, p, a) == Some(s') && Tainted(s, t, x) && s'.store.journal.Some?
    requires x !in AppendedBy(a, t)
    ensures Tainted(s', t, x)
  {
    BuildExcludesWriter(s, p);
    StepKeepsNotAppending(s, p, a, s', t, x);
    if a.Advance? {
      AdvanceHolds(s, p, s', t, x);
    } else {
      StartHolds(s, p, a, s', t, x);
    }
  }

  /** One build is under way from step `k` to step `n`. */
  ghost predicate BuildOpen(run: seq<State>, k: nat, n: nat)
    requires k <= n < |run|
  {
    forall j | k <= j <= n :: run[j].store.journal.Some?
  }

  lemma {:induction false} RunStaysTainted(run: seq<State>, schedule: Schedule, k: nat, n: nat, t: ThreadId, x: MessageId)
    requires IsRun(run, schedule) && k <= n < |run| && BuildOpen(run, k, n)
    requires Tainted(run[k], t, x) && x !in AppendedIn(schedule, k, n, t)
    ensures Tainted(run[n], t, x)
  {
    if k < n {
      RunStaysTainted(run, schedule, k, n - 1, t, x);
      RunKeepsInv(run, schedule, n - 1);
      StepStaysTainted(run[n - 1], schedule[n - 1].0, schedule[n - 1].1, run[n], t, x);
    }
  }

  // ---- Over runs ----------------------------------------------------------------------------

  /** Right after a cut, the rows it removed are tainted if the build holds them. */
  lemma CutTaints(s: State, p: Pid, t: ThreadId, id: MessageId, s': State, x: MessageId)
    requires Inv(s) && Next(s, p, Truncate(t, id)) == Some(s') && HoldsRemoved(ViewOf(s', t), x)
    ensures Tainted(s', t, x)
  {
    forall q: Pid ensures !AppendsTo(PcOf(s', q), t) {
      assert ProcOk(s, q);
    }
  }

  /** The build publishes `s'`. */
  predicate Publishes(s: State, q: Pid, a: Action) {
    a.Advance? && PcOf(s, q).BuildScan?
  }

  lemma PublishedView(s: State, q: Pid, s': State, t: ThreadId)
    requires Inv(s) && Next(s, q, Advance) == Some(s') && PcOf(s, q).BuildScan? && s.store.journal.Some?
    ensures s'.store.cache.Some? && s'.store.transcripts == s.store.transcripts
    ensures Of(s'.store.cache.value, t) == WouldPublish(ViewOf(s, t))
  {
    Mover(s, q);
    PublishStepView(s, q, t);
  }

  /** A cut removes a row the build holds, and its id is not appended again until the build
      publishes: then the published index holds the removed row, whatever else happens. */
  lemma RemovedRowIsPublished(run: seq<State>, schedule: Schedule, k: nat, n: nat, t: ThreadId, id: MessageId, x: MessageId)
    requires IsRun(run, schedule) && k < n < |schedule| && BuildOpen(run, k, n)
    requires schedule[k].1 == Truncate(t, id) && HoldsRemoved(ViewOf(run[k + 1], t), x)
    requires x !in AppendedIn(schedule, k + 1, n, t)
    requires Publishes(run[n], schedule[n].0, schedule[n].1)
    ensures run[n + 1].store.cache.Some?
    ensures x in Of(run[n + 1].store.cache.value, t) && IndexOf(RowsOf(run[n + 1].store, t), x).None?
  {
    RunKeepsInv(run, schedule, k);
    CutTaints(run[k], schedule[k].0, t, id, run[k + 1], x);
    RunStaysTainted(run, schedule, k + 1, n, t, x);
    RunKeepsInv(run, schedule, n);
    PublishedView(run[n], schedule[n].0, run[n + 1], t);
    HoldsRemovedIs(ViewOf(run[n], t), x);
  }

  /** Every cut of `t` from step `k` to step `n` spares the build. */
  ghost predicate CutsSpare(run: seq<State>, schedule: Schedule, k: nat, n: nat, t: ThreadId)
    requires |run| == |schedule| + 1 && k <= n < |run|
  {
    forall j, id | k <= j < n && schedule[j].1 == Truncate(t, id) :: !CutsBuild(run[j], t, id)
  }

  /** Step `j` cuts `t`, and the build is left with the removed id `x`. */
  predicate Removes(run: seq<State>, schedule: Schedule, j: nat, t: ThreadId, x: MessageId)
    requires |run| == |schedule| + 1 && j < |schedule|
  {
    schedule[j].1.Truncate? && schedule[j].1.thread == t && HoldsRemoved(ViewOf(run[j + 1], t), x)
  }

  /** No id that a cut of `t` removes while the build holds it is appended again in time. */
  ghost predicate RemovedStayOut(run: seq<State>, schedule: Schedule, k: nat, n: nat, t: ThreadId)
    requires |run| == |schedule| + 1 && k <= n < |run|
  {
    forall j, x | k <= j < n && Removes(run, schedule, j, t, x) :: x !in AppendedIn(schedule, j + 1, n, t)
  }

  /** The step `j` is a cut of `t` that hurts the build, the first since it was sound. */
  ghost predicate HurtingCut(run: seq<State>, schedule: Schedule, j: nat, t: ThreadId, id: MessageId)
    requires |run| == |schedule| + 1 && j < |schedule|
  {
    schedule[j].1 == Truncate(t, id) && CutsBuild(run[j], t, id) && t !in run[j].stale
  }

  lemma {:induction false} FirstHurtingCut(run: seq<State>, schedule: Schedule, k: nat, n: nat, t: ThreadId)
    requires IsRun(run, schedule) && k <= n < |run| && t !in run[k].stale
    ensures CutsSpare(run, schedule, k, n, t) ==> t !in run[n].stale
    ensures !CutsSpare(run, schedule, k, n, t) ==> exists j, id | k <= j < n :: HurtingCut(run, schedule, j, t, id)
  {
    if k < n {
      FirstHurtingCut(run, schedule, k, n - 1, t);
      if CutsSpare(run, schedule, k, n - 1, t) {
        if id :| schedule[n - 1].1 == Truncate(t, id) && CutsBuild(run[n - 1], t, id) {
          assert HurtingCut(run, schedule, n - 1, t, id);
        } else {
          assert IsStep(run, schedule, n - 1);
          StepKeepsFresh(run[n - 1], schedule[n - 1].0, schedule[n - 1].1, run[n], t);
        }
      }
    }
  }

  /** A cut that hurts leaves the build with a removed row. */
  lemma HurtingCutRemoves(run: seq<State>, schedule: Schedule, j: nat, t: ThreadId, id: MessageId) returns (x: MessageId)
    requires IsRun(run, schedule) && j < |schedule| && HurtingCut(run, schedule, j, t, id)
    requires run[j].store.journal.Some?
    ensures HoldsRemoved(ViewOf(run[j + 1], t), x)
  {
    RunKeepsInv(run, schedule, j);
    assert IsStep(run, schedule, j);
    CutMeetsBuild(run[j], schedule[j].0, t, id);
    x :| x in WouldPublish(ViewOf(run[j + 1], t)) && IndexOf(RowsOf(run[j + 1].store, t), x).None?;
    HoldsRemovedIs(ViewOf(run[j + 1], t), x);
  }

  /** Truncation soundness is exact. While a build runs, `t` is cut, appended to and cut again in
      any way, only that no removed id the build holds is appended again in time, and when the
      build publishes no truncation of `t` is half-way. Then the published index holds only rows
      of the transcript, and in fact exactly the index of its finalised rows, if and only if no
      cut removed rows the build held. */
  lemma CutDuringBuildIff(run: seq<State>, schedule: Schedule, k: nat, n: nat, t: ThreadId)
    requires IsRun(run, schedule) && k <= n < |schedule| && BuildOpen(run, k, n)
    requires t !in run[k].stale && RemovedStayOut(run, schedule, k, n, t)
    requires Publishes(run[n], schedule[n].0, schedule[n].1) && Settled(ViewOf(run[n], t))
    ensures run[n + 1].store.cache.Some?
    ensures OnlyIdsOf(Of(run[n + 1].store.cache.value, t), RowsOf(run[n + 1].store, t))
       <==> CutsSpare(run, schedule, k, n, t)
    ensures Of(run[n + 1].store.cache.value, t) == FirstOf(FinalRows(run[n + 1], t))
       <==> CutsSpare(run, schedule, k, n, t)
  {
    RunKeepsInv(run, schedule, n);
    PublishedView(run[n], schedule[n].0, run[n + 1], t);
    FirstHurtingCut(run, schedule, k, n, t);
    FinalAreRows(run[n + 1], t);
    if CutsSpare(run, schedule, k, n, t) {
      PublishSkipsNothing(run[n], schedule[n].0, t);
    } else {
      var j, id :| k <= j < n && HurtingCut(run, schedule, j, t, id);
      var x := HurtingCutRemoves(run, schedule, j, t, id);
      assert Removes(run, schedule, j, t, x);
      RemovedRowIsPublished(run, schedule, j, n, t, id, x);
    }
  }

  /** Every id of the index of the finalised rows is that of a row. */
  lemma FinalAreRows(s: State, t: ThreadId)
    ensures OnlyIdsOf(FirstOf(FinalRows(s, t)), RowsOf(s.store, t))
  {
    var v := ViewOf(s, t);
    var rows := if v.phase.Written? && v.rows != [] then v.rows[..|v.rows| - 1] else v.rows;
    forall x | x in FirstOf(FinalRows(s, t)) ensures IndexOf(v.rows, x).Some? {
      FirstOfMeaning(FinalRows(s, t), x);
      IndexOfSearchable(rows, x);
      IndexOfNoneIff(v.rows, x);
      assert v.rows[IndexOf(rows, x).value].id == x;
    }
  }
}
