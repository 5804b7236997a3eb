/** Whole operations of the conversation store, run one after another. */
module SoloStore {
  import opened Wrappers
  import opened Types
  import opened ThreadLog
  import opened Transcript
  import opened StoreState
  import opened StoreProtocol
  import StoreViews
  import StoreSafety

  /** One thread of a store on which nothing is in flight. */
  function SoloView(st: Store, skipped: map<ThreadId, nat>, t: ThreadId): View {
    View(FoldThread(st.log, t), RowsOf(st, t), Free,
         if st.cache.Some? then Some(Of(st.cache.value, t)) else None,
         None, NoScan, if t in skipped then skipped[t] else 0, false, false)
  }

  /** Index, trail and ids are right. */
  predicate AllOk(v: View) {
    ThreadOk(v) && TrailOk(v) && UniqueAgentIds(v.rows)
  }

  lemma KeepsAll(v: View, w: View)
    requires AllOk(v) && Keeps(v, w)
    ensures AllOk(w)
  {
  }

  ghost predicate Healthy(st: Store, skipped: map<ThreadId, nat>) {
    st.journal.None? && forall t: ThreadId :: AllOk(SoloView(st, skipped, t))
  }

  // ---- What a full scan measures ------------------------------------------------------------

  datatype Summary = Summary(
    id: ThreadId,
    title: string,
    messageCount: nat,
    lastMessageAt: string,
    createdAt: string,
    parent: Option<ThreadId>,
    labels: seq<string>,
    personality: Option<string>)

  function SummaryWith(t: ThreadId, e: ThreadEntry, count: nat, last: string): Summary {
    Summary(t, e.title, count, last, e.createdAt, e.parent, NormalizedLabels(e.labels), e.personality)
  }

  /** The summary of a live thread, measured on its whole transcript. */
  function Measured(st: Store, t: ThreadId): Summary
    requires t in Fold(st.log)
  {
    var e := Fold(st.log)[t];
    Summary(t, e.title, |RowsOf(st, t)|, LastTime(Some(e), RowsOf(st, t)), e.createdAt, e.parent, e.labels, e.personality)
  }

  /** Folded stats, where both are present, are what measuring would give. */
  lemma TrailIsMeasured(st: Store, skipped: map<ThreadId, nat>, t: ThreadId)
    requires Healthy(st, skipped) && t in Fold(st.log)
    ensures var e := Fold(st.log)[t];
            !TrailMissing(e) ==> SummaryWith(t, e, e.messageCount.value, e.lastMessageAt.value) == Measured(st, t)
    ensures var e := Fold(st.log)[t];
            SummaryWith(t, e, |RowsOf(st, t)|, LastTime(Some(e), RowsOf(st, t))) == Measured(st, t)
  {
    FoldIsPerThread(st.log, t);
    FoldedLabelsFixed(st.log, t);
    assert AllOk(SoloView(st, skipped, t));
    StoreViews.LastTimeOfFinal(FoldThread(st.log, t), RowsOf(st, t));
  }

  lemma RowsAreLive(st: Store, skipped: map<ThreadId, nat>, t: ThreadId)
    requires Healthy(st, skipped)
    ensures RowsOf(st, t) != [] ==> t in Fold(st.log)
  {
    FoldIsPerThread(st.log, t);
    assert AllOk(SoloView(st, skipped, t));
  }

  // ---- Whole operations -----------------------------------------------------------------------

  predicate AppendRepeats(st: Store, t: ThreadId, m: Message) {
    IsDeterministicId(m.id) && IndexOf(RowsOf(st, t), m.id).Some?
  }

  function SoloAppend(st: Store, t: ThreadId, m: Message): Store {
    if t !in Fold(st.log) || AppendRepeats(st, t, m) then st
    else FinaliseAppend(WriteRow(st, t, m), t, m)
  }

  function SoloTruncate(st: Store, t: ThreadId, id: MessageId): Store {
    var cut := IndexOf(RowsOf(st, t), id);
    if cut.None? then st
    else EvictThread(RecordStats(CutRows(st, t, cut.value), t, RowsOf(st, t)[..cut.value]), t)
  }

  /** A truncation on a warm index leaves the kept rows out of it. */
  function SkippedAfterTruncate(st: Store, skipped: map<ThreadId, nat>, t: ThreadId, id: MessageId)
    : map<ThreadId, nat>
  {
    var cut := IndexOf(RowsOf(st, t), id);
    if cut.None? || st.cache.None? then skipped else skipped[t := cut.value]
  }

  function SoloDelete(st: Store, t: ThreadId, at: string): Store {
    if t !in Fold(st.log) then st else EvictThread(Unlink(Tombstone(st, t, at), t), t)
  }

  function SoloPurge(st: Store): Store {
    DropCache(Wipe(st))
  }

  datatype SoloOp =
    | Update(section: Section)
    | Append(thread: ThreadId, msg: Message)
    | Truncate(thread: ThreadId, id: MessageId)

  function RunOp(st: Store, op: SoloOp): Store {
    match op
    case Update(section) => RunSection(st, section)
    case Append(t, m) => SoloAppend(st, t, m)
    case Truncate(t, id) => SoloTruncate(st, t, id)
  }

  function SkippedAfter(st: Store, skipped: map<ThreadId, nat>, op: SoloOp): map<ThreadId, nat> {
    if op.Truncate? then SkippedAfterTruncate(st, skipped, op.thread, op.id) else skipped
  }

  lemma AppendOther(st: Store, skipped: map<ThreadId, nat>, t: ThreadId, m: Message, u: ThreadId)
    requires u != t && st.journal.None?
    ensures SoloView(SoloAppend(st, t, m), skipped, u) == SoloView(st, skipped, u)
  {
    StoreSafety.FinaliseOther(WriteRow(st, t, m), t, m, u);
  }

  lemma TruncateOther(st: Store, skipped: map<ThreadId, nat>, t: ThreadId, id: MessageId, u: ThreadId)
    requires u != t && st.journal.None?
    ensures SoloView(SoloTruncate(st, t, id), SkippedAfterTruncate(st, skipped, t, id), u) == SoloView(st, skipped, u)
  {
    var cut := IndexOf(RowsOf(st, t), id);
    if cut.Some? {
      StoreSafety.StatsLog(CutRows(st, t, cut.value), t, RowsOf(st, t)[..cut.value], u);
    }
  }

  lemma SectionOther(st: Store, skipped: map<ThreadId, nat>, a: Section, u: ThreadId)
    requires u != a.thread && st.journal.None?
    ensures SoloView(RunSection(st, a), skipped, u) == SoloView(st, skipped, u)
  {
    StoreSafety.SectionLog(st, a, u);
  }

  lemma AppendOwn(st: Store, skipped: map<ThreadId, nat>, t: ThreadId, m: Message)
    requires AllOk(SoloView(st, skipped, t)) && st.journal.None?
    ensures AllOk(SoloView(SoloAppend(st, t, m), skipped, t))
  {
    var v := SoloView(st, skipped, t);
    FoldIsPerThread(st.log, t);
    if t in Fold(st.log) && !AppendRepeats(st, t, m) {
      StoreViews.PhaseChange(v, Checked);
      StoreViews.RowWritten(v.(phase := Checked), m);
      var w := v.(phase := Written(m), rows := v.rows + [m]);
      StoreViews.RowFinalised(w, t);
      StoreSafety.FinaliseOther(WriteRow(st, t, m), t, m, t);
      assert SoloView(SoloAppend(st, t, m), skipped, t) == StoreViews.WithRow(w, t, m);
    }
  }

  lemma TruncateOwn(st: Store, skipped: map<ThreadId, nat>, t: ThreadId, id: MessageId)
    requires AllOk(SoloView(st, skipped, t)) && st.journal.None?
    ensures AllOk(SoloView(SoloTruncate(st, t, id), SkippedAfterTruncate(st, skipped, t, id), t))
  {
    var v := SoloView(st, skipped, t);
    var cut := IndexOf(v.rows, id);
    if cut.Some? {
      var kept := v.rows[..cut.value];
      StoreViews.RowsCut(v, cut.value);
      var w := v.(phase := Cut(kept), rows := kept);
      StoreViews.StatsRecorded(w, t, kept);
      StoreSafety.StatsLog(CutRows(st, t, cut.value), t, kept, t);
      var x := w.(phase := Evicting, entry := ApplyOwn(w.entry, Stats(t, |kept|, LastTime(w.entry, kept))));
      StoreViews.Evicted(x);
      assert SoloView(SoloTruncate(st, t, id), SkippedAfterTruncate(st, skipped, t, id), t) == StoreViews.AfterEvict(x);
    }
  }

  lemma SectionOwn(st: Store, skipped: map<ThreadId, nat>, a: Section)
    requires AllOk(SoloView(st, skipped, a.thread)) && st.journal.None?
    ensures AllOk(SoloView(RunSection(st, a), skipped, a.thread))
  {
    var v := SoloView(st, skipped, a.thread);
    var st' := RunSection(st, a);
    StoreSafety.SectionOwn(st, a, v);
    KeepsAll(v, v.(entry := FoldThread(st'.log, a.thread), rows := RowsOf(st', a.thread)));
    assert SoloView(st', skipped, a.thread)
        == v.(entry := FoldThread(st'.log, a.thread), rows := RowsOf(st', a.thread));
  }

  /** Appends, truncations and metadata updates keep a healthy store healthy. */
  lemma OpKeepsHealthy(st: Store, skipped: map<ThreadId, nat>, op: SoloOp)
    requires Healthy(st, skipped)
    ensures Healthy(RunOp(st, op), SkippedAfter(st, skipped, op))
  {
    forall u: ThreadId ensures AllOk(SoloView(RunOp(st, op), SkippedAfter(st, skipped, op), u)) {
      assert AllOk(SoloView(st, skipped, u));
      match op
      case Update(a) =>
        if u == a.thread { SectionOwn(st, skipped, a); } else { SectionOther(st, skipped, a, u); }
      case Append(t, m) =>
        if u == t { AppendOwn(st, skipped, t, m); } else { AppendOther(st, skipped, t, m, u); }
      case Truncate(t, id) =>
        if u == t { TruncateOwn(st, skipped, t, id); } else { TruncateOther(st, skipped, t, id, u); }
    }
  }

  lemma DeleteOwn(st: Store, skipped: map<ThreadId, nat>, t: ThreadId, at: string)
    requires AllOk(SoloView(st, skipped, t)) && st.journal.None? && t in Fold(st.log)
    ensures AllOk(SoloView(SoloDelete(st, t, at), skipped - {t}, t))
  {
    var v := SoloView(st, skipped, t);
    StoreSafety.TombstoneLog(st, t, at, t);
    StoreViews.PhaseChange(v, Locked);
    StoreViews.Tombstoned(v.(phase := Locked));
    StoreViews.RowsUnlinked(v.(phase := Unlinking, entry := None));
    var w := v.(phase := Unlinked, entry := None, rows := []);
    StoreViews.DeletedThreadEvicted(w);
    assert SoloView(SoloDelete(st, t, at), skipped - {t}, t) == StoreViews.AfterDelete(w);
  }

  lemma DeleteOther(st: Store, skipped: map<ThreadId, nat>, t: ThreadId, at: string, u: ThreadId)
    requires u != t && st.journal.None?
    ensures SoloView(SoloDelete(st, t, at), skipped - {t}, u) == SoloView(st, skipped, u)
  {
    StoreSafety.TombstoneLog(st, t, at, u);
  }

  lemma DeleteKeepsHealthy(st: Store, skipped: map<ThreadId, nat>, t: ThreadId, at: string)
    requires Healthy(st, skipped) && t in Fold(st.log)
    ensures Healthy(SoloDelete(st, t, at), skipped - {t})
  {
    forall u: ThreadId ensures AllOk(SoloView(SoloDelete(st, t, at), skipped - {t}, u)) {
      assert AllOk(SoloView(st, skipped, u));
      if u == t {
        DeleteOwn(st, skipped, t, at);
      } else {
        DeleteOther(st, skipped, t, at, u);
      }
    }
  }

  lemma PurgeKeepsHealthy(st: Store, skipped: map<ThreadId, nat>)
    requires Healthy(st, skipped)
    ensures Healthy(SoloPurge(st), map[])
  {
  }

  /** A freshly built index of the store, without the threads whose transcript could not be read. */
  ghost predicate IsIndexExcept(index: Index, st: Store, unreadable: set<ThreadId>) {
    forall t: ThreadId ::
      Of(index, t) == if t in unreadable then map[] else FirstOf(SearchableRows(RowsOf(st, t)))
  }

  /** A freshly built index of the whole store. */
  ghost predicate IsFullIndex(index: Index, st: Store) {
    IsIndexExcept(index, st, {})
  }

  /** How many rows of each thread such an index leaves out: all of the unreadable ones. */
  function Unread(st: Store, unreadable: set<ThreadId>): map<ThreadId, nat> {
    map t | t in unreadable :: |RowsOf(st, t)|
  }

  /** What a scan of the threads in `done` has of thread `u`. */
  function LiveIndexed(st: Store, done: set<ThreadId>, u: ThreadId): Indexed {
    if u in done then AddRows(map[], RowsOf(st, u)) else map[]
  }

  /** `built` is what scanning the threads in `done` gives. */
  ghost predicate IsScanOf(built: Index, st: Store, done: set<ThreadId>) {
    forall u: ThreadId :: Of(built, u) == LiveIndexed(st, done, u)
  }

  lemma ScanStep(st: Store, built: Index, done: set<ThreadId>, t: ThreadId)
    requires t !in done && IsScanOf(built, st, done)
    ensures IsScanOf(ScanThread(built, st, t), st, done + {t})
  {
    forall u: ThreadId ensures Of(ScanThread(built, st, t), u) == LiveIndexed(st, done + {t}, u) {
      assert Of(built, u) == LiveIndexed(st, done, u);
    }
  }

  /** Only live threads have rows, so scanning those indexes everything. */
  lemma LiveRowsAreAll(st: Store, skipped: map<ThreadId, nat>, u: ThreadId)
    requires Healthy(st, skipped)
    ensures LiveIndexed(st, Fold(st.log).Keys, u) == FirstOf(SearchableRows(RowsOf(st, u)))
  {
    FirstOfSearchable(map[], RowsOf(st, u));
    FoldIsPerThread(st.log, u);
    assert AllOk(SoloView(st, skipped, u));
  }

  lemma ScanOfLiveIsIndex(st: Store, skipped: map<ThreadId, nat>, built: Index, unreadable: set<ThreadId>)
    requires Healthy(st, skipped) && IsScanOf(built, st, Fold(st.log).Keys - unreadable)
    ensures IsIndexExcept(built, st, unreadable)
  {
    forall u: ThreadId
      ensures Of(built, u) == if u in unreadable then map[] else FirstOf(SearchableRows(RowsOf(st, u)))
    {
      LiveRowsAreAll(st, skipped, u);
      assert Of(built, u) == LiveIndexed(st, Fold(st.log).Keys - unreadable, u);
    }
  }

  lemma PrimeKeepsHealthy(st: Store, skipped: map<ThreadId, nat>, index: Index, unreadable: set<ThreadId>)
    requires Healthy(st, skipped) && IsIndexExcept(index, st, unreadable)
    ensures Healthy(st.(cache := Some(index)), Unread(st, unreadable))
  {
    forall t: ThreadId ensures AllOk(SoloView(st.(cache := Some(index)), Unread(st, unreadable), t)) {
      var v, w := SoloView(st, skipped, t), SoloView(st.(cache := Some(index)), Unread(st, unreadable), t);
      assert AllOk(v) && Final(w) == Final(v) == SearchableRows(RowsOf(st, t));
      assert Final(w)[0..] == Final(v) && Final(w)[|Final(w)|..] == [];
      AddRowsKeys(map[], Final(w));
    }
  }

  // ---- Listing --------------------------------------------------------------------------------

  function MissingTrails(index: ThreadIndex): set<ThreadId> {
    set t | t in index && TrailMissing(index[t])
  }

  /** A repair completes one trail and leaves every other field of the fold alone. */
  lemma RepairedFold(st: Store, t: ThreadId)
    requires t in Fold(st.log) && TrailMissing(Fold(st.log)[t])
    ensures var e := Fold(st.log)[t];
            Fold(Repaired(st, t).log)
            == Fold(st.log)[t := e.(messageCount := Some(|RowsOf(st, t)|),
                                    lastMessageAt := Some(LastTime(Some(e), RowsOf(st, t))))]
  {
    FoldIsPerThread(st.log, t);
    assert Repaired(st, t).log[..|st.log|] == st.log;
  }

  lemma RepairKeepsSummary(st: Store, t: ThreadId, u: ThreadId)
    requires u in Fold(st.log)
    ensures u in Fold(Repaired(st, t).log)
    ensures Measured(Repaired(st, t), u) == Measured(st, u)
  {
    if t in Fold(st.log) && TrailMissing(Fold(st.log)[t]) {
      RepairedFold(st, t);
    }
  }

  /** Repairing one thread completes exactly that trail. */
  lemma RepairCompletesTrail(st: Store, t: ThreadId)
    ensures Fold(Repaired(st, t).log).Keys == Fold(st.log).Keys
    ensures MissingTrails(Fold(Repaired(st, t).log)) == MissingTrails(Fold(st.log)) - {t}
  {
    if t in Fold(st.log) && TrailMissing(Fold(st.log)[t]) {
      RepairedFold(st, t);
    }
  }
}
