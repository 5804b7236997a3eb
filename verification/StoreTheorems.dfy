/** What holds in every run of the store protocol. */
module StoreTheorems {
  import opened Wrappers
  import opened Types
  import opened ThreadLog
  import opened Transcript
  import opened StoreState
  import opened StoreProtocol
  import opened StoreSafety
  import opened StoreViews

  // ---- Runs -------------------------------------------------------------------------------

  lemma StartKeepsInv(s: State, p: Pid, a: Action, s': State, u: ThreadId)
    requires Inv(s) && Next(s, p, a) == Some(s') && !a.Advance?
    ensures LocksOk(s') && Keeps(ViewOf(s, u), ViewOf(s', u))
  {
    match a
    case Append(t, m) => AppendStarts(s, p, t, m, u);
    case Truncate(t, id) => TruncateStarts(s, p, t, id, u);
    case Search => SearchStarts(s, p, u);
    case DeleteThread(t, at) => DeleteStarts(s, p, t, at, u);
    case Purge => PurgeStarts(s, p, u);
    case Run(op) => SectionRuns(s, p, op, u);
    case Scan(t) => ScanStep(s, p, t, u);
    case FailSnapshot => FailSnapshotStep(s, p, u);
  }

  lemma AppendKeepsInv(s: State, p: Pid, s': State, u: ThreadId)
    requires Inv(s) && Continue(s, p) == Some(s')
    requires PcOf(s, p).AppendLocked? || PcOf(s, p).AppendChecked? || PcOf(s, p).AppendWritten?
    ensures LocksOk(s') && Keeps(ViewOf(s, u), ViewOf(s', u))
  {
    match PcOf(s, p)
    case AppendLocked(t, m) => AppendLockedStep(s, p, t, m, u);
    case AppendChecked(t, m) => AppendCheckedStep(s, p, t, m, u);
    case AppendWritten(t, m) => AppendWrittenStep(s, p, t, m, u);
  }

  lemma TruncateKeepsInv(s: State, p: Pid, s': State, u: ThreadId)
    requires Inv(s) && Continue(s, p) == Some(s') && (PcOf(s, p).TruncateStats? || PcOf(s, p).TruncateEvict?)
    ensures LocksOk(s') && Keeps(ViewOf(s, u), ViewOf(s', u))
  {
    var pc := PcOf(s, p);
    if pc.TruncateStats? {
      assert s' == StepTruncateStats(s, p, pc.thread, pc.kept);
      TruncateStatsStep(s, p, pc.thread, pc.kept, u);
    } else {
      assert s' == StepTruncateEvict(s, p, pc.thread);
      TruncateEvictStep(s, p, pc.thread, u);
    }
  }

  lemma SearchKeepsInv(s: State, p: Pid, s': State, u: ThreadId)
    requires Inv(s) && Continue(s, p) == Some(s') && PcOf(s, p).Thread().None? && !PcOf(s, p).Writes()
    ensures LocksOk(s') && Keeps(ViewOf(s, u), ViewOf(s', u))
  {
    match PcOf(s, p)
    case SearchCold => SearchColdStep(s, p, u);
    case BuildBegin => BuildBeginStep(s, p, u);
    case BuildSnapshot => BuildSnapshotStep(s, p, u);
    case BuildScan(_, _) => Mover(s, p); PublishStep(s, p, u);
    case SearchReady => SearchReadyStep(s, p, u);
  }

  lemma DeleteKeepsInv(s: State, p: Pid, s': State, u: ThreadId)
    requires Inv(s) && Continue(s, p) == Some(s') && PcOf(s, p).Writes() && PcOf(s, p).Thread().Some?
    ensures LocksOk(s') && Keeps(ViewOf(s, u), ViewOf(s', u))
  {
    var pc := PcOf(s, p);
    if pc.DeleteLocked? {
      assert s' == StepDeleteLocked(s, p, pc.thread, pc.at);
      DeleteLockedStep(s, p, pc.thread, pc.at, u);
    } else if pc.DeleteUnlink? {
      assert s' == StepDeleteUnlink(s, p, pc.thread);
      DeleteUnlinkStep(s, p, pc.thread, u);
    } else {
      assert s' == StepDeleteEvict(s, p, pc.thread);
      DeleteEvictStep(s, p, pc.thread, u);
    }
  }

  lemma PurgeKeepsInv(s: State, p: Pid, s': State, u: ThreadId)
    requires Inv(s) && Continue(s, p) == Some(s') && PcOf(s, p).Writes() && PcOf(s, p).Thread().None?
    ensures LocksOk(s') && Keeps(ViewOf(s, u), ViewOf(s', u))
  {
    if PcOf(s, p).PurgeLocked? {
      PurgeLockedStep(s, p, u);
    } else {
      PurgeEvictStep(s, p, u);
    }
  }

  lemma AdvanceKeeps(s: State, p: Pid, s': State, u: ThreadId)
    requires Inv(s) && Continue(s, p) == Some(s')
    ensures LocksOk(s') && Keeps(ViewOf(s, u), ViewOf(s', u))
  {
    var pc := PcOf(s, p);
    if pc.Writes() {
      if pc.Thread().Some? { DeleteKeepsInv(s, p, s', u); } else { PurgeKeepsInv(s, p, s', u); }
    } else if pc.Thread().None? {
      SearchKeepsInv(s, p, s', u);
    } else if pc.TruncateStats? || pc.TruncateEvict? {
      TruncateKeepsInv(s, p, s', u);
    } else {
      AppendKeepsInv(s, p, s', u);
    }
  }

  /** Every step of every process keeps each thread's invariant, its right trail and its unique
      deterministic ids. */
  lemma StepKeeps(s: State, p: Pid, a: Action, s': State, u: ThreadId)
    requires Inv(s) && Next(s, p, a) == Some(s')
    ensures LocksOk(s') && Keeps(ViewOf(s, u), ViewOf(s', u))
  {
    if a.Advance? {
      AdvanceKeeps(s, p, s', u);
    } else {
      StartKeepsInv(s, p, a, s', u);
    }
  }

  /** Every step of every process keeps the invariant. */
  lemma StepKeepsInv(s: State, p: Pid, a: Action, s': State)
    requires Inv(s) && Next(s, p, a) == Some(s')
    ensures Inv(s')
  {
    StepKeeps(s, p, a, s', "");
    forall u: ThreadId ensures ThreadOk(ViewOf(s', u)) {
      StepKeeps(s, p, a, s', u);
    }
  }

  type Schedule = seq<(Pid, Action)>

  /** `run[i + 1]` is `run[i]` after process `schedule[i].0` did `schedule[i].1`. */
  predicate IsStep(run: seq<State>, schedule: Schedule, i: nat)
    requires |run| == |schedule| + 1 && i < |schedule|
  {
    Next(run[i], schedule[i].0, schedule[i].1) == Some(run[i + 1])
  }

  ghost predicate IsRun(run: seq<State>, schedule: Schedule) {
    && |run| == |schedule| + 1
    && Init(run[0])
    && forall i | 0 <= i < |schedule| :: IsStep(run, schedule, i)
  }

  lemma {:induction false} RunKeepsInv(run: seq<State>, schedule: Schedule, i: nat)
    requires IsRun(run, schedule) && i < |run|
    ensures Inv(run[i])
    ensures i < |schedule| ==> IsStep(run, schedule, i)
  {
    if i == 0 {
      InitInv(run[0]);
    } else {
      RunKeepsInv(run, schedule, i - 1);
      StepKeepsInv(run[i - 1], schedule[i - 1].0, schedule[i - 1].1, run[i]);
    }
  }

  predicate StaysRight(v: View, w: View) {
    (TrailOk(v) ==> TrailOk(w)) && (UniqueAgentIds(v.rows) ==> UniqueAgentIds(w.rows))
  }

  lemma RunStepKeeps(run: seq<State>, schedule: Schedule, i: nat, t: ThreadId)
    requires IsRun(run, schedule) && i < |schedule|
    ensures StaysRight(ViewOf(run[i], t), ViewOf(run[i + 1], t))
  {
    RunKeepsInv(run, schedule, i);
    StepKeeps(run[i], schedule[i].0, schedule[i].1, run[i + 1], t);
  }

  predicate AllKept(views: seq<View>) {
    forall j | 0 < j < |views| :: StaysRight(views[j - 1], views[j])
  }

  lemma {:induction false} KeptAlong(views: seq<View>, i: nat)
    requires i < |views| && AllKept(views)
    ensures TrailOk(views[0]) ==> TrailOk(views[i])
    ensures UniqueAgentIds(views[0].rows) ==> UniqueAgentIds(views[i].rows)
  {
    if i > 0 {
      KeptAlong(views, i - 1);
    }
  }

  /** The views of one thread along a run. */
  function ViewsAlong(run: seq<State>, t: ThreadId): (views: seq<View>)
    ensures |views| == |run| && forall i | 0 <= i < |run| :: views[i] == ViewOf(run[i], t)
  {
    seq(|run|, i requires 0 <= i < |run| => ViewOf(run[i], t))
  }

  lemma ViewsAreKept(run: seq<State>, schedule: Schedule, t: ThreadId)
    requires IsRun(run, schedule)
    ensures AllKept(ViewsAlong(run, t))
  {
    var views := ViewsAlong(run, t);
    forall j | 0 < j < |views| ensures StaysRight(views[j - 1], views[j]) {
      RunStepKeeps(run, schedule, j - 1, t);
    }
  }

  /** A trail that is right when the process starts is right in every state of the run. */
  lemma TrailStaysRight(run: seq<State>, schedule: Schedule, i: nat, t: ThreadId)
    requires IsRun(run, schedule) && i < |run| && TrailOk(ViewOf(run[0], t))
    ensures TrailOk(ViewOf(run[i], t))
  {
    ViewsAreKept(run, schedule, t);
    KeptAlong(ViewsAlong(run, t), i);
  }

  // ---- The search index -------------------------------------------------------------------

  /** Rows of `t` whose append has finalised, as the index sees them. */
  function FinalRows(s: State, t: ThreadId): Rows {
    Final(ViewOf(s, t))
  }

  /** In every run: a warm index holds, for each thread no truncation or delete is working on and
      no build went stale on, exactly the finalised rows after the skipped ones, first row per id. */
  lemma WarmIndexExact(run: seq<State>, schedule: Schedule, i: nat, t: ThreadId)
    requires IsRun(run, schedule) && i < |run|
    requires run[i].store.cache.Some? && Settled(ViewOf(run[i], t)) && t !in run[i].stale
    ensures Skipped(run[i], t) <= |FinalRows(run[i], t)|
    ensures Of(run[i].store.cache.value, t) == FirstOf(FinalRows(run[i], t)[Skipped(run[i], t)..])
  {
    RunKeepsInv(run, schedule, i);
    assert ThreadOk(ViewOf(run[i], t));
  }

  /** Completeness asks nothing of the run: stale or not, a warm index has every finalised row's id
      after the skipped ones, for each thread no truncation or delete is working on. */
  lemma NothingFinalisedIsMissed(run: seq<State>, schedule: Schedule, i: nat, t: ThreadId, k: nat)
    requires IsRun(run, schedule) && i < |run| && run[i].store.cache.Some? && Settled(ViewOf(run[i], t))
    requires Skipped(run[i], t) <= k < |FinalRows(run[i], t)|
    ensures FinalRows(run[i], t)[k].id in Of(run[i].store.cache.value, t)
  {
    RunKeepsInv(run, schedule, i);
    assert ThreadOk(ViewOf(run[i], t));
  }

  predicate Truncates(pc: Pc) {
    pc.TruncateStats? || pc.TruncateEvict?
  }

  ghost predicate TruncationFree(s: State) {
    && s.stale == {}
    && (forall t | t in s.skipped :: s.skipped[t] == 0)
    && NoCutInProgress(s)
  }

  lemma {:induction false} NoTruncationRun(run: seq<State>, schedule: Schedule, i: nat)
    requires IsRun(run, schedule) && i < |run|
    requires forall k | 0 <= k < |schedule| :: !schedule[k].1.Truncate?
    ensures TruncationFree(run[i])
  {
    if i > 0 {
      NoTruncationRun(run, schedule, i - 1);
      assert IsStep(run, schedule, i - 1);
      NoTruncationStep(run[i - 1], schedule[i - 1].0, schedule[i - 1].1, run[i]);
    }
  }

  lemma NoTruncationStep(s: State, p: Pid, a: Action, s': State)
    requires TruncationFree(s) && !a.Truncate? && Next(s, p, a) == Some(s')
    ensures TruncationFree(s')
  {
    assert !Truncates(PcOf(s, p));
    if a.Advance? {
      if PcOf(s, p).Writes() {
        WriterQuiet(s, p, s');
      } else if PcOf(s, p).Thread().Some? {
        AppendQuiet(s, p, s');
      } else {
        SearchQuiet(s, p, s');
      }
    }
    assert Quiet(s, p, s');
  }

  /** A step that truncates nothing and skips nothing. */
  ghost predicate Quiet(s: State, p: Pid, s': State) {
    && (forall q: Pid | q != p :: PcOf(s', q) == PcOf(s, q))
    && !Truncates(PcOf(s', p))
    && s'.stale <= s.stale
    && (forall t | t in s'.skipped :: t in s.skipped && s'.skipped[t] == s.skipped[t])
  }

  lemma AppendQuiet(s: State, p: Pid, s': State)
    requires Continue(s, p) == Some(s') && PcOf(s, p).Thread().Some? && !PcOf(s, p).Writes() && !Truncates(PcOf(s, p))
    ensures Quiet(s, p, s')
  {
    match PcOf(s, p)
    case AppendLocked(t, m) => assert s' == StepAppendLocked(s, p, t, m);
    case AppendChecked(t, m) => assert s' == StepAppendChecked(s, p, t, m);
    case AppendWritten(t, m) => assert s' == StepAppendWritten(s, p, t, m);
  }

  lemma SearchQuiet(s: State, p: Pid, s': State)
    requires Continue(s, p) == Some(s') && PcOf(s, p).Thread().None? && !PcOf(s, p).Writes()
    ensures Quiet(s, p, s')
  {
    match PcOf(s, p)
    case SearchCold => assert s' == StepSearchCold(s, p);
    case BuildBegin => assert s' == StepBuildBegin(s, p);
    case BuildSnapshot => assert s' == StepBuildSnapshot(s, p);
    case BuildScan(_, built) => assert s' == StepPublish(s, p, built);
    case SearchReady => assert s' == Goto(s, p, Idle);
  }

  lemma DeleteQuiet(s: State, p: Pid, s': State)
    requires Continue(s, p) == Some(s') && PcOf(s, p).Writes() && PcOf(s, p).Thread().Some?
    ensures Quiet(s, p, s')
  {
    match PcOf(s, p)
    case DeleteLocked(t, at) => assert s' == StepDeleteLocked(s, p, t, at);
    case DeleteUnlink(t) => assert s' == StepDeleteUnlink(s, p, t);
    case DeleteEvict(t) => assert s' == StepDeleteEvict(s, p, t);
  }

  lemma PurgeQuiet(s: State, p: Pid, s': State)
    requires Continue(s, p) == Some(s') && PcOf(s, p).Writes() && PcOf(s, p).Thread().None?
    ensures Quiet(s, p, s')
  {
    assert PcOf(s, p).PurgeLocked? ==> s' == StepPurgeLocked(s, p);
    assert PcOf(s, p).PurgeEvict? ==> s' == StepPurgeEvict(s, p);
  }

  lemma WriterQuiet(s: State, p: Pid, s': State)
    requires Continue(s, p) == Some(s') && PcOf(s, p).Writes()
    ensures Quiet(s, p, s')
  {
    if PcOf(s, p).Thread().Some? {
      DeleteQuiet(s, p, s');
    } else {
      PurgeQuiet(s, p, s');
    }
  }

  /** A step changes no other process. */
  lemma AdvanceMovesOne(s: State, p: Pid, s': State)
    requires Continue(s, p) == Some(s')
    ensures forall q: Pid | q != p :: PcOf(s', q) == PcOf(s, q)
  {
    var pc := PcOf(s, p);
    if pc.Writes() {
      WriterQuiet(s, p, s');
    } else if pc.Thread().None? {
      SearchQuiet(s, p, s');
    } else if !Truncates(pc) {
      AppendQuiet(s, p, s');
    } else if pc.TruncateStats? {
      assert s' == StepTruncateStats(s, p, pc.thread, pc.kept);
    } else {
      assert s' == StepTruncateEvict(s, p, pc.thread);
    }
  }

  // ---- Appends in a run -------------------------------------------------------------------

  /** The process is inside an append to `t`. */
  predicate AppendsTo(pc: Pc, t: ThreadId) {
    (pc.AppendLocked? || pc.AppendChecked? || pc.AppendWritten?) && pc.thread == t
  }

  lemma AdvanceGoesTo(s: State, p: Pid, s': State, t: ThreadId)
    requires Continue(s, p) == Some(s') && !PcOf(s, p).PurgeLocked? && !PcOf(s, p).PurgeEvict?
    ensures AppendsTo(PcOf(s', p), t) ==> AppendsTo(PcOf(s, p), t) && PcOf(s', p).msg == PcOf(s, p).msg
    ensures !PcOf(s', p).PurgeEvict? && !PcOf(s', p).PurgeLocked?
  {
  }

  function AppendedBy(a: Action, t: ThreadId): set<MessageId> {
    if a.Append? && a.thread == t then {a.msg.id} else {}
  }

  /** The ids whose appends to `t` started at steps `k` to `n - 1`. */
  function AppendedIn(schedule: Schedule, k: nat, n: nat, t: ThreadId): set<MessageId>
    requires k <= n <= |schedule|
  {
    if k == n then {} else AppendedIn(schedule, k, n - 1, t) + AppendedBy(schedule[n - 1].1, t)
  }

  // ---- Cold builds ------------------------------------------------------------------------

  /** Cold builds are correct over every interleaving of searches, appends, updates, deletes and
      purges: while no write guard is held, a warm index is the first-row-per-id index of all
      finalised rows of every thread. */
  lemma ColdBuildCorrect(run: seq<State>, schedule: Schedule, i: nat, t: ThreadId)
    requires IsRun(run, schedule) && i < |run|
    requires forall k | 0 <= k < |schedule| :: !schedule[k].1.Truncate?
    requires run[i].store.cache.Some? && run[i].writer.None?
    ensures Of(run[i].store.cache.value, t) == FirstOf(FinalRows(run[i], t))
  {
    var s := run[i];
    NoTruncationRun(run, schedule, i);
    RunKeepsInv(run, schedule, i);
    SettledWithoutWriter(s, t);
    WarmIndexExact(run, schedule, i, t);
    assert FinalRows(s, t)[0..] == FinalRows(s, t);
  }

  /** No truncation is between cutting a thread's rows and evicting it. */
  ghost predicate NoCutInProgress(s: State) {
    forall p: Pid :: !Truncates(PcOf(s, p))
  }

  /** No truncation of `t` is between cutting its rows and evicting it. */
  ghost predicate NotCutting(s: State, t: ThreadId) {
    forall p: Pid :: !(Truncates(PcOf(s, p)) && PcOf(s, p).thread == t)
  }

  lemma SettledWithoutWriter(s: State, t: ThreadId)
    requires LocksOk(s) && s.writer.None? && NotCutting(s, t)
    ensures Settled(ViewOf(s, t))
  {
    assert HolderOk(s, t);
    if t in s.holder {
      assert ProcOk(s, s.holder[t]);
    }
  }

  /** Read row by row: an id is indexed exactly if a finalised row has it, under the first such
      row; and rows belong to live threads only. */
  lemma ColdBuildRows(run: seq<State>, schedule: Schedule, i: nat, t: ThreadId, id: MessageId)
    requires IsRun(run, schedule) && i < |run|
    requires forall k | 0 <= k < |schedule| :: !schedule[k].1.Truncate?
    requires run[i].store.cache.Some? && run[i].writer.None?
    ensures var rows, indexed := FinalRows(run[i], t), Of(run[i].store.cache.value, t);
            && (id in indexed <==> IndexOf(rows, id).Some?)
            && (id in indexed ==> indexed[id] == Searchable(rows[IndexOf(rows, id).value]))
            && (id in indexed ==> t in Fold(run[i].store.log))
  {
    ColdBuildCorrect(run, schedule, i, t);
    FirstOfMeaning(FinalRows(run[i], t), id);
    RunKeepsInv(run, schedule, i);
    NoTruncationRun(run, schedule, i);
    SettledWithoutWriter(run[i], t);
    assert ThreadOk(ViewOf(run[i], t));
    FoldIsPerThread(run[i].store.log, t);
  }

  // ---- Truncation -------------------------------------------------------------------------

  /** A thread's index is complete exactly if every skipped row's id occurs again later. */
  lemma CompleteIff(v: View)
    requires ThreadOk(v) && v.cached.Some? && Settled(v) && !v.stale
    ensures v.skipped <= |Final(v)|
    ensures (forall k | 0 <= k < |Final(v)| :: Final(v)[k].id in v.cached.value)
            <==> (forall k | 0 <= k < v.skipped :: IndexOf(Final(v)[v.skipped..], Final(v)[k].id).Some?)
  {
    SuffixIndexes(Final(v), v.skipped);
  }

  lemma SuffixIndexes(f: Rows, n: nat)
    requires n <= |f|
    ensures forall k | 0 <= k < |f| :: f[k].id in FirstOf(f[n..]) <==> IndexOf(f[n..], f[k].id).Some?
    ensures forall k | n <= k < |f| :: f[k].id in FirstOf(f[n..])
  {
    forall k | 0 <= k < |f| ensures f[k].id in FirstOf(f[n..]) <==> IndexOf(f[n..], f[k].id).Some? {
      FirstOfMeaning(f[n..], f[k].id);
    }
    forall k | n <= k < |f| ensures f[k].id in FirstOf(f[n..]) {
      IndexOfExact(f[n..], f[k].id);
      assert f[n..][k - n] == f[k];
    }
  }

  lemma IndexedRow(rows: Rows, n: nat, id: MessageId)
    requires n <= |rows| && id in FirstOf(SearchableRows(rows)[n..])
    ensures exists k | 0 <= k < |rows| :: Searchable(rows[k]) == FirstOf(SearchableRows(rows)[n..])[id]
  {
    var f := SearchableRows(rows);
    FirstOfMeaning(f[n..], id);
    var k := IndexOf(f[n..], id).value;
    assert f[n..][k] == f[n + k] == Searchable(rows[n + k]);
  }

  /** Soundness of truncation: outside stale threads, every indexed message is a row of its
      thread's transcript, so no removed row can be hit. */
  lemma IndexedIsDurable(run: seq<State>, schedule: Schedule, i: nat, t: ThreadId, id: MessageId)
    requires IsRun(run, schedule) && i < |run|
    requires run[i].store.cache.Some? && Settled(ViewOf(run[i], t)) && t !in run[i].stale
    requires id in Of(run[i].store.cache.value, t)
    ensures exists k | 0 <= k < |RowsOf(run[i].store, t)| ::
              Searchable(RowsOf(run[i].store, t)[k]) == Of(run[i].store.cache.value, t)[id]
  {
    var v := ViewOf(run[i], t);
    WarmIndexExact(run, schedule, i, t);
    var rows := if v.phase.Written? && v.rows != [] then v.rows[..|v.rows| - 1] else v.rows;
    IndexedRow(rows, v.skipped, id);
    var k :| 0 <= k < |rows| && Searchable(rows[k]) == FirstOf(SearchableRows(rows)[v.skipped..])[id];
    assert rows[k] == v.rows[k];
  }

  /** A truncation that ends on a cold index costs nothing: publishing resets what is skipped. */
  lemma PublishSkipsNothing(s: State, p: Pid, t: ThreadId)
    requires Inv(s) && PcOf(s, p).BuildScan? && PcOf(s, p).todo == {} && t !in s.stale && Settled(ViewOf(s, t))
    ensures var s' := StepPublish(s, p, PcOf(s, p).built);
            Of(s'.store.cache.value, t) == FirstOf(FinalRows(s', t))
  {
    Mover(s, p);
    PublishStep(s, p, t);
    PublishStepView(s, p, t);
    assert FinalRows(StepPublish(s, p, PcOf(s, p).built), t)[0..] == FinalRows(StepPublish(s, p, PcOf(s, p).built), t);
  }

  // ---- Stats, ids, progress of a search ----------------------------------------------------

  /** Whenever a thread's lock is free, its folded stats are missing or what reading the whole
      transcript would give. */
  lemma StatTrailRefinesScan(run: seq<State>, schedule: Schedule, i: nat, t: ThreadId)
    requires IsRun(run, schedule) && i < |run| && TrailOk(ViewOf(run[0], t))
    requires t !in run[i].holder && t in Fold(run[i].store.log)
    ensures var e, rows := Fold(run[i].store.log)[t], RowsOf(run[i].store, t);
            && (e.messageCount.None? || e.messageCount.value == |rows|)
            && (e.lastMessageAt.None? || e.lastMessageAt.value == LastTime(Some(e), rows))
  {
    TrailStaysRight(run, schedule, i, t);
    FoldIsPerThread(run[i].store.log, t);
    LastTimeOfFinal(ViewOf(run[i], t).entry, RowsOf(run[i].store, t));
  }

  /** In every run no deterministic id comes to occur twice in a transcript. */
  lemma DeterministicIdsUnique(run: seq<State>, schedule: Schedule, i: nat, t: ThreadId)
    requires IsRun(run, schedule) && i < |run| && UniqueAgentIds(RowsOf(run[0].store, t))
    ensures UniqueAgentIds(RowsOf(run[i].store, t))
  {
    ViewsAreKept(run, schedule, t);
    KeptAlong(ViewsAlong(run, t), i);
    assert ViewsAlong(run, t)[0].rows == RowsOf(run[0].store, t);
    assert ViewsAlong(run, t)[i].rows == RowsOf(run[i].store, t);
  }

  /** `p` is appending to `t` a message whose deterministic id the transcript has. */
  predicate Repeating(s: State, p: Pid, t: ThreadId, m: Message) {
    && (PcOf(s, p) == AppendLocked(t, m) || PcOf(s, p) == AppendChecked(t, m))
    && IsDeterministicId(m.id) && IndexOf(RowsOf(s.store, t), m.id).Some?
  }

  /** While `p` holds the lock of `t` under a read guard, no one else touches its rows. */
  lemma OthersKeepRows(s: State, p: Pid, q: Pid, a: Action, s': State, t: ThreadId)
    requires LocksOk(s) && Next(s, q, a) == Some(s') && q != p
    requires PcOf(s, p).Thread() == Some(t) && !PcOf(s, p).Writes()
    ensures RowsOf(s'.store, t) == RowsOf(s.store, t) && PcOf(s', p) == PcOf(s, p)
  {
    Mover(s, p);
    Mover(s, q);
    if a.Advance? {
      AdvanceMovesOne(s, q, s');
      OthersAdvanceKeepsRows(s, q, s', t);
    }
  }

  lemma OthersAdvanceKeepsRows(s: State, q: Pid, s': State, t: ThreadId)
    requires Continue(s, q) == Some(s') && !PcOf(s, q).Writes() && PcOf(s, q).Thread() != Some(t)
    ensures RowsOf(s'.store, t) == RowsOf(s.store, t)
  {
  }

  lemma RepeatedAppendStep(s: State, p: Pid, t: ThreadId, m: Message, q: Pid, a: Action, s': State)
    requires Inv(s) && Next(s, q, a) == Some(s') && Repeating(s, p, t, m)
    ensures q == p ==> s'.store == s.store
    ensures PcOf(s', p).Idle? || Repeating(s', p, t, m)
  {
    if q != p {
      OthersKeepRows(s, p, q, a, s', t);
    }
  }

  lemma RepeatingStep(run: seq<State>, schedule: Schedule, j: nat, p: Pid, t: ThreadId, m: Message)
    requires IsRun(run, schedule) && j < |schedule| && Repeating(run[j], p, t, m)
    ensures schedule[j].0 == p ==> run[j + 1].store == run[j].store
    ensures PcOf(run[j + 1], p).Idle? || Repeating(run[j + 1], p, t, m)
  {
    RunKeepsInv(run, schedule, j);
    RepeatedAppendStep(run[j], p, t, m, schedule[j].0, schedule[j].1, run[j + 1]);
  }

  lemma {:induction false} RepeatingStays(run: seq<State>, schedule: Schedule, k: nat, n: nat, p: Pid, t: ThreadId,
                                          m: Message)
    requires IsRun(run, schedule) && k <= n < |run| && Repeating(run[k], p, t, m)
    requires forall j | k <= j < n :: !PcOf(run[j], p).Idle?
    ensures PcOf(run[n], p).Idle? || Repeating(run[n], p, t, m)
  {
    if k < n {
      RepeatingStays(run, schedule, k, n - 1, p, t, m);
      RepeatingStep(run, schedule, n - 1, p, t, m);
    }
  }

  /** Appending a stored deterministic id again, whatever the others do meanwhile: until `p` is
      done, no step of `p` changes any transcript, the log, the journal or the index. */
  lemma RepeatedAppendChangesNothing(run: seq<State>, schedule: Schedule, k: nat, j: nat, p: Pid, t: ThreadId, m: Message)
    requires IsRun(run, schedule) && k <= j < |schedule| && Repeating(run[k], p, t, m)
    requires forall i | k <= i <= j :: !PcOf(run[i], p).Idle?
    requires schedule[j].0 == p
    ensures run[j + 1].store == run[j].store
  {
    RepeatingStays(run, schedule, k, j, p, t, m);
    RepeatingStep(run, schedule, j, p, t, m);
  }

  /** A search that finished priming always finds the index. */
  lemma PrimedIndexPresent(run: seq<State>, schedule: Schedule, i: nat, p: Pid)
    requires IsRun(run, schedule) && i < |run| && PcOf(run[i], p).SearchReady?
    ensures run[i].store.cache.Some?
  {
    RunKeepsInv(run, schedule, i);
    assert ProcOk(run[i], p);
  }
}
