/** What `list_threads` returns: one summary per live thread, ranked by time. */
module ThreadListing {
  import opened Wrappers
  import opened Types
  import opened ThreadLog
  import opened Transcript
  import opened StoreState
  import opened SoloStore
  import opened StoreContracts
  import StoreProtocol
  import StoreSafety
  import StoreTheorems
  import opened Ranking

  /** A thread as it is listed from its folded entry alone. */
  function Listed(t: ThreadId, e: ThreadEntry): (s: Summary)
    ensures s.id == t
  {
    SummaryWith(t, e, if e.messageCount.Some? then e.messageCount.value else 0,
                if e.lastMessageAt.Some? then e.lastMessageAt.value else e.createdAt)
  }

  function ListedAll(index: ThreadIndex): (r: map<ThreadId, Summary>)
    ensures r.Keys == index.Keys
  {
    map t | t in index :: Listed(t, index[t])
  }

  function MeasuredAll(st: Store): map<ThreadId, Summary> {
    map t | t in Fold(st.log) :: Measured(st, t)
  }

  function SummaryRank(millis: string -> int, s: Summary): Rank {
    Rank(millis(s.lastMessageAt), millis(s.createdAt))
  }

  function SummaryRanks(millis: string -> int, summaries: map<ThreadId, Summary>): (r: map<ThreadId, Rank>)
    ensures r.Keys == summaries.Keys
  {
    map t | t in summaries :: SummaryRank(millis, summaries[t])
  }

  /** A thread as shown when its transcript may be unreadable: measured if its trail is complete or
      the transcript can be read, else from its folded entry alone. */
  function Shown(st: Store, t: ThreadId, unreadable: set<ThreadId>): Summary
    requires t in Fold(st.log)
  {
    if t !in unreadable || !TrailMissing(Fold(st.log)[t]) then Measured(st, t) else Listed(t, Fold(st.log)[t])
  }

  function ShownAll(st: Store, unreadable: set<ThreadId>): (r: map<ThreadId, Summary>)
    ensures r.Keys == Fold(st.log).Keys
  {
    map t | t in Fold(st.log) :: Shown(st, t, unreadable)
  }

  /** These threads, in this order, with these summaries. */
  predicate ShownAs(threads: seq<Summary>, ids: seq<ThreadId>, summaries: map<ThreadId, Summary>) {
    |threads| == |ids| && forall i | 0 <= i < |ids| :: ids[i] in summaries && threads[i] == summaries[ids[i]]
  }

  /** Every summary once: newest message first, then newest thread first. */
  ghost predicate IsListing(threads: seq<Summary>, summaries: map<ThreadId, Summary>, millis: string -> int) {
    exists ids ::
      && ShownAs(threads, ids, summaries)
      && IsTopSelection(ids, SummaryRanks(millis, summaries), |SummaryRanks(millis, summaries)|)
  }

  /** Two listed threads are in order. */
  lemma ListedPair(threads: seq<Summary>, ids: seq<ThreadId>, summaries: map<ThreadId, Summary>,
                   millis: string -> int, i: nat, j: nat)
    requires ShownAs(threads, ids, summaries) && i < j < |threads|
    requires IsTopSelection(ids, SummaryRanks(millis, summaries), |SummaryRanks(millis, summaries)|)
    ensures ids[i] != ids[j] && InOrder(threads[i], threads[j], millis)
  {
    var ranks := SummaryRanks(millis, summaries);
    assert !Outranks(ranks[ids[j]], ranks[ids[i]]);
  }

  lemma ListedThread(threads: seq<Summary>, ids: seq<ThreadId>, summaries: map<ThreadId, Summary>, t: ThreadId)
    requires ShownAs(threads, ids, summaries) && t in ids && t in summaries && summaries[t].id == t
    ensures Occurs(threads, t)
  {
    var i :| 0 <= i < |ids| && ids[i] == t;
    assert threads[i].id == t;
  }

  /** What a listing looks like to its reader. */
  lemma ListingReads(threads: seq<Summary>, summaries: map<ThreadId, Summary>, millis: string -> int)
    requires IsListing(threads, summaries, millis) && forall t | t in summaries :: summaries[t].id == t
    ensures NewestFirst(threads, millis) && EachOnce(threads, summaries.Keys)
    ensures forall i | 0 <= i < |threads| :: threads[i] == summaries[threads[i].id]
  {
    var ranks := SummaryRanks(millis, summaries);
    var ids :| ShownAs(threads, ids, summaries) && IsTopSelection(ids, ranks, |ranks|);
    forall i, j | 0 <= i < j < |threads|
      ensures InOrder(threads[i], threads[j], millis) && threads[i].id != threads[j].id
    {
      ListedPair(threads, ids, summaries, millis, i, j);
    }
    ListsEveryId(ids, ranks);
    forall t | t in summaries ensures Occurs(threads, t) {
      ListedThread(threads, ids, summaries, t);
    }
  }

  lemma ListsEveryId(ids: seq<ThreadId>, ranks: map<ThreadId, Rank>)
    requires IsTopSelection(ids, ranks, |ranks|)
    ensures forall t | t in ranks :: t in ids
  {
    DistinctCount(ids);
    assert ToSet(ids) <= ranks.Keys && |ranks| == |ranks.Keys|;
    SameSizeIsEqual(ToSet(ids), ranks.Keys);
  }

  /** A listed entry shows what is recorded, or no rows and the creation time. */
  lemma ListedShows(index: ThreadIndex, t: ThreadId)
    requires t in index && LabelsFixed(index[t].labels)
    ensures var e := index[t];
            Shows(Listed(t, e), t, e, if e.messageCount.Some? then e.messageCount.value else 0,
                  if e.lastMessageAt.Some? then e.lastMessageAt.value else e.createdAt)
  {
  }

  lemma ShownShows(st: Store, t: ThreadId, unreadable: set<ThreadId>)
    requires t in Fold(st.log)
    ensures ShowsThread(Shown(st, t, unreadable), st, t, unreadable)
  {
    FoldIsPerThread(st.log, t);
    FoldedLabelsFixed(st.log, t);
    ListedShows(Fold(st.log), t);
  }

  lemma AllShow(threads: seq<Summary>, st: Store, unreadable: set<ThreadId>, millis: string -> int)
    requires IsListing(threads, ShownAll(st, unreadable), millis)
    ensures ListsThreads(threads, st, unreadable, millis)
  {
    ListingReads(threads, ShownAll(st, unreadable), millis);
    forall i | 0 <= i < |threads| ensures ShowsLive(threads[i], st, unreadable) {
      ShownShows(st, threads[i].id, unreadable);
    }
  }

  lemma ListedReads(threads: seq<Summary>, index: ThreadIndex, millis: string -> int)
    requires IsListing(threads, ListedAll(index), millis)
    ensures NewestFirst(threads, millis) && EachOnce(threads, index.Keys)
    ensures forall i | 0 <= i < |threads| :: ShowsEntry(threads[i], index)
  {
    ListingReads(threads, ListedAll(index), millis);
    forall i | 0 <= i < |threads| ensures ShowsEntry(threads[i], index) {
      if LabelsFixed(index[threads[i].id].labels) {
        ListedShows(index, threads[i].id);
      }
    }
  }

  method RankSummaries(millis: string -> int, summaries: map<ThreadId, Summary>) returns (all: seq<Ranked<ThreadId>>)
    ensures Lists(all, SummaryRanks(millis, summaries))
  {
    all := [];
    var remaining := summaries.Keys;
    while remaining != {}
      invariant remaining <= summaries.Keys
      invariant forall i, j | 0 <= i < j < |all| :: all[i].key != all[j].key
      invariant forall i | 0 <= i < |all| :: all[i].key in summaries && all[i].key !in remaining
                                          && all[i].rank == SummaryRank(millis, summaries[all[i].key])
      invariant forall t | t in summaries && t !in remaining :: Ranked(t, SummaryRank(millis, summaries[t])) in all
      decreases |remaining|
    {
      var t :| t in remaining;
      all := all + [Ranked(t, SummaryRank(millis, summaries[t]))];
      remaining := remaining - {t};
    }
  }

  method ThreadsFromIndex(millis: string -> int, index: ThreadIndex) returns (threads: seq<Summary>)
    ensures IsListing(threads, ListedAll(index), millis)
    ensures NewestFirst(threads, millis) && EachOnce(threads, index.Keys)
    ensures forall i | 0 <= i < |threads| :: ShowsEntry(threads[i], index)
  {
    var summaries := ListedAll(index);
    var all := RankSummaries(millis, summaries);
    SortAll(all, SummaryRanks(millis, summaries));
    var ids := KeysOf(SortRanked(all));
    threads := seq(|ids|, i requires 0 <= i < |ids| && ids[i] in summaries => summaries[ids[i]]);
    assert ShownAs(threads, ids, summaries);
    ListedReads(threads, index, millis);
  }

  // ---- Repairs ----------------------------------------------------------------------------------

  /** Live threads that are neither complete nor quarantined. */
  function Pending(st: Store, quarantined: set<ThreadId>): set<ThreadId> {
    MissingTrails(Fold(st.log)) - quarantined
  }

  // ---- What others can do to pending work -------------------------------------------------------

  /** The operation creates a thread. */
  predicate Creates(st: Store, op: SoloOp) {
    op.Update? && op.section.Ensure? && op.section.thread !in Fold(st.log)
  }

  /** No operation but a creation brings a thread to life or makes a trail incomplete. */
  lemma EntryAfter(st: Store, op: SoloOp, u: ThreadId)
    requires st.journal.None?
    ensures var before, after := FoldThread(st.log, u), FoldThread(RunOp(st, op).log, u);
            && (before.Some? ==> after.Some? && (TrailMissing(after.value) ==> TrailMissing(before.value)))
            && (before.None? && after.Some? ==> Creates(st, op) && op.section.thread == u)
            && (Creates(st, op) && op.section.thread == u ==> after.Some? && TrailMissing(after.value))
  {
    FoldIsPerThread(st.log, u);
    match op
    case Append(t, m) => StoreSafety.FinaliseOther(WriteRow(st, t, m), t, m, u);
    case Truncate(t, id) =>
      if IndexOf(RowsOf(st, t), id).Some? {
        var k := IndexOf(RowsOf(st, t), id).value;
        StoreSafety.StatsLog(CutRows(st, t, k), t, RowsOf(st, t)[..k], u);
      }
    case Update(a) => SectionEntryAfter(st, a, u);
  }

  lemma SectionEntryAfter(st: Store, a: StoreProtocol.Section, u: ThreadId)
    ensures var before, after := FoldThread(st.log, u), FoldThread(StoreProtocol.RunSection(st, a).log, u);
            && (before.Some? ==> after.Some? && (TrailMissing(after.value) ==> TrailMissing(before.value)))
            && (before.None? && after.Some? ==> Creates(st, Update(a)) && a.thread == u)
            && (Creates(st, Update(a)) && a.thread == u ==> after.Some? && TrailMissing(after.value))
  {
    FoldIsPerThread(st.log, u);
    if u != a.thread {
      StoreSafety.SectionLog(st, a, u);
    } else if a.Ensure? || a.Retitle? || a.Relabel? {
      StoreSafety.UpdateKeepsTrail(st, a);
      StoreSafety.SectionAppends(st, a);
      var log := StoreProtocol.RunSection(st, a).log;
      if log != st.log {
        FoldThreadStep(st.log, log[|log| - 1], u);
      }
    } else if a.Repair? {
      StoreSafety.StatsLog(st, u, RowsOf(st, u), u);
    }
  }

  /** Pending work grows exactly by creations of threads that are not quarantined. */
  lemma PendingGrowsIff(st: Store, op: SoloOp, quarantined: set<ThreadId>)
    requires st.journal.None?
    ensures Pending(RunOp(st, op), quarantined) <= Pending(st, quarantined)
       <==> !(Creates(st, op) && op.section.thread !in quarantined)
    ensures Fold(RunOp(st, op).log).Keys == Fold(st.log).Keys + Created(st, op)
  {
    forall u: ThreadId
      ensures u in Fold(RunOp(st, op).log) <==> u in Fold(st.log) || (Creates(st, op) && op.section.thread == u)
      ensures u in Pending(RunOp(st, op), quarantined) ==>
                u in Pending(st, quarantined) || (Creates(st, op) && op.section.thread == u)
      ensures Creates(st, op) && op.section.thread == u && u !in quarantined ==>
                u in Pending(RunOp(st, op), quarantined) && u !in Pending(st, quarantined)
    {
      FoldIsPerThread(st.log, u);
      FoldIsPerThread(RunOp(st, op).log, u);
      EntryAfter(st, op, u);
    }
  }

  /** All threads these operations ensure are among `names`. */
  predicate CreateWithin(ops: seq<SoloOp>, names: set<ThreadId>) {
    forall i | 0 <= i < |ops| && ops[i].Update? && ops[i].section.Ensure? :: ops[i].section.thread in names
  }

  /** From `a` to `b` threads among `names` may have been created; if none was, no trail got lost. */
  predicate Advances(a: Store, b: Store, names: set<ThreadId>) {
    && Fold(a.log).Keys <= Fold(b.log).Keys <= Fold(a.log).Keys + names
    && (Fold(b.log).Keys == Fold(a.log).Keys ==> MissingTrails(Fold(b.log)) <= MissingTrails(Fold(a.log)))
  }

  function Created(st: Store, op: SoloOp): set<ThreadId> {
    if Creates(st, op) then {op.section.thread} else {}
  }

  lemma AdvancesFurther(a: Store, st: Store, st': Store, created: set<ThreadId>, names: set<ThreadId>)
    requires Advances(a, st, names) && created <= names && created !! Fold(st.log).Keys
    requires Fold(st'.log).Keys == Fold(st.log).Keys + created
    requires created == {} ==> MissingTrails(Fold(st'.log)) <= MissingTrails(Fold(st.log))
    ensures Advances(a, st', names)
  {
    if Fold(st'.log).Keys == Fold(a.log).Keys {
      assert created <= Fold(st.log).Keys;
    }
  }

  lemma OpAdvances(a: Store, st: Store, op: SoloOp, names: set<ThreadId>)
    requires st.journal.None? && Advances(a, st, names) && CreateWithin([op], names)
    ensures Advances(a, RunOp(st, op), names)
  {
    assert [op][0] == op;
    PendingGrowsIff(st, op, {});
    assert Pending(st, {}) == MissingTrails(Fold(st.log));
    assert Pending(RunOp(st, op), {}) == MissingTrails(Fold(RunOp(st, op).log));
    AdvancesFurther(a, st, RunOp(st, op), Created(st, op), names);
  }

  /** Since `start`: if no thread was created, what is pending was so then and is not in `done`. */
  predicate Repairing(start: Store, quarantinedThen: set<ThreadId>, st: Store, quarantined: set<ThreadId>,
                      done: set<ThreadId>, names: set<ThreadId>)
  {
    && Fold(start.log).Keys <= Fold(st.log).Keys <= Fold(start.log).Keys + names
    && quarantinedThen <= quarantined
    && (Fold(st.log).Keys == Fold(start.log).Keys ==>
          Pending(st, quarantined) <= Pending(start, quarantinedThen) - done)
  }

  /** Others ran, then `t` was repaired or quarantined. */
  lemma RepairingStep(start: Store, quarantinedThen: set<ThreadId>, before: Store, quarantined: set<ThreadId>,
                      done: set<ThreadId>, mid: Store, t: ThreadId, after: Store, quarantined': set<ThreadId>,
                      names: set<ThreadId>)
    requires Repairing(start, quarantinedThen, before, quarantined, done, names) && Advances(before, mid, names)
    requires Fold(after.log).Keys == Fold(mid.log).Keys && quarantined <= quarantined'
    requires Pending(after, quarantined') == Pending(mid, quarantined) - {t}
    ensures Repairing(start, quarantinedThen, after, quarantined', done + {t}, names)
  {
    if Fold(after.log).Keys == Fold(start.log).Keys {
      assert Fold(mid.log).Keys == Fold(before.log).Keys == Fold(start.log).Keys;
      assert Pending(mid, quarantined) <= Pending(before, quarantined);
    }
  }

  /** What is left to do: threads that may still be created, then pending repairs. */
  predicate LessToDo(a: Store, quarantinedA: set<ThreadId>, b: Store, quarantinedB: set<ThreadId>, names: set<ThreadId>) {
    var leftA, leftB := names - Fold(a.log).Keys, names - Fold(b.log).Keys;
    |leftB| < |leftA| || (|leftB| == |leftA| && |Pending(b, quarantinedB)| < |Pending(a, quarantinedA)|)
  }

  lemma SubsetIsFewer<T>(a: set<T>, b: set<T>)
    requires a <= b
    ensures |a| <= |b| && (a != b ==> |a| < |b|)
  {
    assert b == a + (b - a);
  }

  /** A round that repairs or quarantines all it found leaves less to do, whatever the others did. */
  lemma RoundLeavesLess(a: Store, quarantined: set<ThreadId>, found: Store, b: Store, quarantined': set<ThreadId>,
                        names: set<ThreadId>)
    requires Advances(a, found, names) && Pending(found, quarantined) != {}
    requires Fold(found.log).Keys <= Fold(b.log).Keys <= Fold(found.log).Keys + names
    requires Fold(b.log).Keys == Fold(found.log).Keys ==> Pending(b, quarantined') == {}
    ensures LessToDo(a, quarantined, b, quarantined', names)
  {
    var keysA, keysB := Fold(a.log).Keys, Fold(b.log).Keys;
    SubsetIsFewer(names - keysB, names - keysA);
    if keysA == keysB {
      assert Pending(found, quarantined) <= Pending(a, quarantined);
      SubsetIsFewer(Pending(found, quarantined), Pending(a, quarantined));
    } else {
      var x :| x in keysB && x !in keysA;
      assert x in names - keysA && x !in names - keysB;
    }
  }

  /** Every live thread outside `quarantined` is listed as measuring its transcript lists it. */
  ghost predicate MeasuredExcept(st: Store, quarantined: set<ThreadId>) {
    forall t | t in Fold(st.log) && t !in quarantined ::
      !TrailMissing(Fold(st.log)[t]) && Listed(t, Fold(st.log)[t]) == Measured(st, t)
  }

  lemma NothingPending(st: Store, skipped: map<ThreadId, nat>, quarantined: set<ThreadId>)
    requires Healthy(st, skipped) && Pending(st, quarantined) == {}
    ensures MeasuredExcept(st, quarantined)
  {
    forall t | t in Fold(st.log) && t !in quarantined
      ensures !TrailMissing(Fold(st.log)[t]) && Listed(t, Fold(st.log)[t]) == Measured(st, t)
    {
      assert t !in Pending(st, quarantined);
      TrailIsMeasured(st, skipped, t);
    }
  }

  /** At any point of any run, whatever is half-way elsewhere: a thread with a complete trail that no
      truncation has just cut is listed with the count and time of its finalised rows. */
  lemma ListedInRun(run: seq<StoreProtocol.State>, schedule: StoreTheorems.Schedule, i: nat, t: ThreadId)
    requires StoreTheorems.IsRun(run, schedule) && i < |run|
    requires StoreProtocol.TrailOk(StoreProtocol.ViewOf(run[0], t))
    requires t in Fold(run[i].store.log) && !TrailMissing(Fold(run[i].store.log)[t])
    requires !StoreProtocol.PhaseOf(run[i], t).Cut?
    ensures var e, rows := Fold(run[i].store.log)[t], StoreTheorems.FinalRows(run[i], t);
            Listed(t, e) == Summary(t, e.title, |rows|, LastTime(Some(e), rows), e.createdAt, e.parent, e.labels,
                                    e.personality)
  {
    StoreTheorems.TrailStaysRight(run, schedule, i, t);
    FoldIsPerThread(run[i].store.log, t);
    FoldedLabelsFixed(run[i].store.log, t);
  }

  lemma ListedIsMeasured(st: Store)
    requires MeasuredExcept(st, {})
    ensures ListedAll(Fold(st.log)) == MeasuredAll(st)
  {
  }

  lemma ShownIsMeasured(st: Store)
    ensures ShownAll(st, {}) == MeasuredAll(st)
  {
  }

  lemma AllMeasured(threads: seq<Summary>, was: Store, st: Store, millis: string -> int)
    requires MeasuredExcept(st, {}) && MeasuredAll(st) == MeasuredAll(was)
    requires IsListing(threads, ListedAll(Fold(st.log)), millis)
    ensures IsListing(threads, MeasuredAll(was), millis) && ListsThreads(threads, was, {}, millis)
  {
    ListedIsMeasured(st);
    ShownIsMeasured(was);
    AllShow(threads, was, {}, millis);
  }

  /** Nothing but trails changed since `was`, and a quarantined trail is still missing. */
  ghost predicate RepairsOnly(was: Store, st: Store, quarantined: set<ThreadId>) {
    && MeasuredAll(st) == MeasuredAll(was)
    && quarantined <= MissingTrails(Fold(st.log))
  }

  /** With all trails measured but the quarantined ones, the listing shows every thread. */
  lemma QuarantinedShow(threads: seq<Summary>, st: Store, skipped: map<ThreadId, nat>, quarantined: set<ThreadId>,
                        millis: string -> int)
    requires Healthy(st, skipped) && MeasuredExcept(st, quarantined)
    requires IsListing(threads, ListedAll(Fold(st.log)), millis)
    ensures ListsThreads(threads, st, quarantined, millis)
  {
    forall t | t in Fold(st.log) ensures Listed(t, Fold(st.log)[t]) == Shown(st, t, quarantined) {
      TrailIsMeasured(st, skipped, t);
    }
    assert ListedAll(Fold(st.log)) == ShownAll(st, quarantined);
    AllShow(threads, st, quarantined, millis);
  }

  /** Either way one thread is dealt with, and no other thread's repair is affected. */
  lemma RepairOrQuarantine(was: Store, st: Store, quarantined: set<ThreadId>, t: ThreadId, quarantine: bool)
    requires t !in quarantined && (quarantine ==> t in Fold(st.log) && TrailMissing(Fold(st.log)[t]))
    ensures var st' := if quarantine then st else Repaired(st, t);
            var quarantined' := if quarantine then quarantined + {t} else quarantined;
            && Pending(st', quarantined') == Pending(st, quarantined) - {t}
            && Fold(st'.log).Keys == Fold(st.log).Keys
            && (RepairsOnly(was, st, quarantined) ==> RepairsOnly(was, st', quarantined'))
  {
    if !quarantine {
      RepairCompletesTrail(st, t);
      forall u | u in Fold(st.log) ensures Measured(Repaired(st, t), u) == Measured(st, u) {
        RepairKeepsSummary(st, t, u);
      }
      assert MeasuredAll(Repaired(st, t)) == MeasuredAll(st);
    }
  }

  // ---- What a listing reconciles ----------------------------------------------------------------

  /** On any store at all: after its repair a live thread is listed as measuring it would list it
      exactly if its trail was missing or already right. */
  lemma RepairMeasuresIff(st: Store, t: ThreadId)
    requires t in Fold(st.log)
    ensures t in Fold(Repaired(st, t).log)
    ensures var e, rows := Fold(st.log)[t], RowsOf(st, t);
            Listed(t, Fold(Repaired(st, t).log)[t]) == Measured(st, t)
            <==> TrailMissing(e) || (e.messageCount.value == |rows| && e.lastMessageAt.value == LastTime(Some(e), rows))
  {
    FoldIsPerThread(st.log, t);
    FoldedLabelsFixed(st.log, t);
    if TrailMissing(Fold(st.log)[t]) {
      RepairedFold(st, t);
    }
  }

  /** A row whose stat entry was lost, on a store that was right before: listing reconciles it
      exactly if the trail is missing. */
  lemma LostStatEntryStays(st: Store, skipped: map<ThreadId, nat>, t: ThreadId, m: Message)
    requires Healthy(st, skipped) && t in Fold(st.log)
    ensures var lost := WriteRow(st, t, m);
            && t in Fold(Repaired(lost, t).log)
            && (Listed(t, Fold(Repaired(lost, t).log)[t]) == Measured(lost, t) <==> TrailMissing(Fold(st.log)[t]))
  {
    TrailIsMeasured(st, skipped, t);
    RepairMeasuresIff(WriteRow(st, t, m), t);
  }

  // ---- The listing under one metadata lock ------------------------------------------------------

  /** The folded entry after a repair. */
  function RepairedEntry(st: Store, t: ThreadId): ThreadEntry
    requires t in Fold(st.log)
  {
    var e := Fold(st.log)[t];
    if TrailMissing(e) then
      e.(messageCount := Some(|RowsOf(st, t)|), lastMessageAt := Some(LastTime(Some(e), RowsOf(st, t))))
    else e
  }

  /** The fold once the trails of `done` have been repaired. */
  function FoldRepaired(st: Store, done: set<ThreadId>): ThreadIndex {
    map t | t in Fold(st.log) :: if t in done then RepairedEntry(st, t) else Fold(st.log)[t]
  }

  /** One repair, on a store that differs from `was` by earlier repairs only. */
  lemma RepairOneMore(was: Store, st: Store, done: set<ThreadId>, t: ThreadId)
    requires Fold(st.log) == FoldRepaired(was, done) && st.transcripts == was.transcripts
    requires t in Fold(was.log) && t !in done && TrailMissing(Fold(was.log)[t])
    ensures t in Fold(st.log) && Fold(st.log)[t] == Fold(was.log)[t] && TrailMissing(Fold(st.log)[t])
    ensures Fold(Repaired(st, t).log) == Fold(st.log)[t := RepairedEntry(was, t)] == FoldRepaired(was, done + {t})
  {
    RepairedFold(st, t);
  }

  /** Repairing what is missing and readable lists every thread as shown. */
  lemma RepairedIsShown(st: Store, skipped: map<ThreadId, nat>, unreadable: set<ThreadId>)
    requires Healthy(st, skipped)
    ensures ListedAll(FoldRepaired(st, MissingTrails(Fold(st.log)) - unreadable)) == ShownAll(st, unreadable)
  {
    forall t | t in Fold(st.log)
      ensures ListedAll(FoldRepaired(st, MissingTrails(Fold(st.log)) - unreadable))[t] == ShownAll(st, unreadable)[t]
    {
      TrailIsMeasured(st, skipped, t);
    }
  }

  // ---- Totals -----------------------------------------------------------------------------------

  /** Sum of a map's values over some of its keys. */
  ghost function SumOver<K>(keys: set<K>, f: map<K, nat>): nat
    requires keys <= f.Keys
  {
    if keys == {} then 0 else var k :| k in keys; f[k] + SumOver(keys - {k}, f)
  }

  lemma {:induction false} SumRemove<K>(keys: set<K>, f: map<K, nat>, k: K)
    requires keys <= f.Keys && k in keys
    ensures SumOver(keys, f) == f[k] + SumOver(keys - {k}, f)
  {
    var j :| j in keys && SumOver(keys, f) == f[j] + SumOver(keys - {j}, f);
    if j != k {
      SumRemove(keys - {j}, f, k);
      SumRemove(keys - {k}, f, j);
      assert keys - {j} - {k} == keys - {k} - {j};
    }
  }

  function Counts(summaries: map<ThreadId, Summary>): map<ThreadId, nat> {
    map t | t in summaries :: summaries[t].messageCount
  }

  function TotalRows(threads: seq<Summary>): nat {
    if threads == [] then 0 else TotalRows(threads[..|threads| - 1]) + threads[|threads| - 1].messageCount
  }

  lemma LastOfDistinct(ids: seq<ThreadId>)
    requires Distinct(ids) && ids != []
    ensures ids[|ids| - 1] in ToSet(ids) && ToSet(ids) - {ids[|ids| - 1]} == ToSet(ids[..|ids| - 1])
  {
    assert ids == ids[..|ids| - 1] + [ids[|ids| - 1]];
  }

  lemma {:induction false} TotalIsSum(threads: seq<Summary>, ids: seq<ThreadId>, summaries: map<ThreadId, Summary>)
    requires ShownAs(threads, ids, summaries) && Distinct(ids) && ToSet(ids) <= summaries.Keys
    ensures TotalRows(threads) == SumOver(ToSet(ids), Counts(summaries))
  {
    if ids != [] {
      TotalIsSum(threads[..|ids| - 1], ids[..|ids| - 1], summaries);
      LastOfDistinct(ids);
      SumRemove(ToSet(ids), Counts(summaries), ids[|ids| - 1]);
    }
  }

  /** A listing has as many threads as there are, and their rows add up. */
  lemma ListingTotals(threads: seq<Summary>, summaries: map<ThreadId, Summary>, millis: string -> int)
    requires IsListing(threads, summaries, millis)
    ensures |threads| == |summaries|
    ensures TotalRows(threads) == SumOver(summaries.Keys, Counts(summaries))
  {
    var ranks := SummaryRanks(millis, summaries);
    var ids :| ShownAs(threads, ids, summaries) && IsTopSelection(ids, ranks, |ranks|);
    DistinctCount(ids);
    KeysCount(ranks);
    KeysCount(summaries);
    assert ToSet(ids) <= summaries.Keys;
    SameSizeIsEqual(ToSet(ids), summaries.Keys);
    TotalIsSum(threads, ids, summaries);
  }

  /** The row count shown for each live thread. */
  function ShownCounts(st: Store, unreadable: set<ThreadId>): (counts: map<ThreadId, nat>)
    ensures counts.Keys == Fold(st.log).Keys
  {
    Counts(ShownAll(st, unreadable))
  }

  lemma KeysCount<K, V>(m: map<K, V>)
    ensures |m| == |m.Keys|
  {
  }

  lemma ShownTotals(threads: seq<Summary>, st: Store, unreadable: set<ThreadId>, millis: string -> int)
    requires IsListing(threads, ShownAll(st, unreadable), millis)
    ensures |threads| == |Fold(st.log)|
    ensures TotalRows(threads) == SumOver(Fold(st.log).Keys, ShownCounts(st, unreadable))
  {
    ListingTotals(threads, ShownAll(st, unreadable), millis);
    KeysCount(Fold(st.log));
    KeysCount(ShownAll(st, unreadable));
  }

  method Total(threads: seq<Summary>) returns (rows: nat)
    ensures rows == TotalRows(threads)
  {
    rows := 0;
    for i := 0 to |threads|
      invariant rows == TotalRows(threads[..i])
    {
      assert threads[..i + 1][..i] == threads[..i];
      rows := rows + threads[i].messageCount;
    }
    assert threads[..|threads|] == threads;
  }

  /** How many threads and rows a listing shows. */
  method Totals(threads: seq<Summary>, ghost st: Store, ghost unreadable: set<ThreadId>, ghost millis: string -> int)
    returns (threadCount: nat, messageCount: nat)
    requires IsListing(threads, ShownAll(st, unreadable), millis)
    ensures threadCount == |Fold(st.log)|
    ensures messageCount == SumOver(Fold(st.log).Keys, ShownCounts(st, unreadable))
  {
    threadCount := |threads|;
    messageCount := Total(threads);
    ShownTotals(threads, st, unreadable, millis);
  }

  lemma SameSizeIsEqual<T>(a: set<T>, b: set<T>)
    requires a <= b && |a| == |b|
    ensures a == b
  {
    assert b == a + (b - a);
  }
}
