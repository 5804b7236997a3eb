/**
 How each lock section changes one thread's view, and that the view invariant survives it.

 Nothing here mentions processes or other threads: a lemma takes a view, the change a section
 makes to it, and shows that the second view keeps what the first one had.

 - Appending: `RowWritten` (durable, not yet visible), then `RowFinalised`.
 - Truncating: `RowsCut`, `StatsRecorded`, `Evicted`.
 - Deleting: `Tombstoned`, `RowsUnlinked`, `DeletedThreadEvicted`.
 - Building: `BuildOpened`, `SnapshotTaken`, `ThreadScanned`, `Published`, or `BuildCancelled`.
 */
module StoreViews {
  import opened Wrappers
  import opened Types
  import opened ThreadLog
  import opened Transcript
  import opened StoreState
  import opened StoreProtocol

  lemma SearchableAppend(rows: Rows, m: Message)
    ensures SearchableRows(rows + [m]) == SearchableRows(rows) + [Searchable(m)]
  {
  }

  lemma LastTimeOfFinal(entry: Option<ThreadEntry>, rows: Rows)
    ensures LastTime(entry, SearchableRows(rows)) == LastTime(entry, rows)
  {
  }

  /** Moving between phases that neither add nor finalise a row. */
  lemma PhaseChange(v: View, phase: Phase)
    requires ThreadOk(v)
    requires v.phase in {Free, Locked, Checked} && phase in {Free, Locked, Checked}
    requires phase.Checked? ==> v.entry.Some?
    ensures Keeps(v, v.(phase := phase))
  {
    assert Final(v.(phase := phase)) == Final(v);
  }

  /** A durable row that is not yet finalised is invisible to trail, index and build. */
  lemma RowWritten(v: View, m: Message)
    requires ThreadOk(v) && v.phase.Checked? && !v.wiped
    requires IsDeterministicId(m.id) ==> IndexOf(v.rows, m.id).None?
    ensures Keeps(v, v.(phase := Written(m), rows := v.rows + [m]))
  {
    var w := v.(phase := Written(m), rows := v.rows + [m]);
    if UniqueAgentIds(v.rows) {
      AppendKeepsUnique(v.rows, m);
    }
    assert w.rows[..|w.rows| - 1] == v.rows;
    assert Final(w) == Final(v);
  }

  /** Index, journal, build and trail all take the pending row in at once. */
  function WithRow(v: View, t: ThreadId, m: Message): View {
    v.(phase := Free,
       entry := ApplyOwn(v.entry, MessageAppended(t, m.createdAt)),
       cached := if v.cached.Some? then Some(AddRow(v.cached.value, m)) else None,
       journal := if v.journal.Some? then Some(v.journal.value + [Searchable(m)]) else None)
  }

  /** The finalised rows after a finalisation. */
  lemma FinalGrows(v: View, t: ThreadId)
    requires v.phase.Written? && v.rows != [] && v.rows[|v.rows| - 1] == v.phase.msg
    ensures Final(WithRow(v, t, v.phase.msg)) == Final(v) + [Searchable(v.phase.msg)]
  {
    var before := v.rows[..|v.rows| - 1];
    assert v.rows == before + [v.phase.msg];
    SearchableAppend(before, v.phase.msg);
  }

  lemma FinalisedTrail(v: View, t: ThreadId)
    requires RowsOk(v) && v.phase.Written?
    ensures RowsOk(WithRow(v, t, v.phase.msg)) && (TrailOk(v) ==> TrailOk(WithRow(v, t, v.phase.msg)))
  {
    var w := WithRow(v, t, v.phase.msg);
    FinalGrows(v, t);
    LastTimeOfFinal(w.entry, w.rows);
  }

  lemma FinalisedComplete(v: View, t: ThreadId)
    requires RowsOk(v) && CompleteOk(v) && v.phase.Written? && !v.wiped
    ensures CompleteOk(WithRow(v, t, v.phase.msg))
  {
    FinalGrows(v, t);
    if v.journal.Some? && v.scan.Done? {
      AddRowsSnoc(v.scan.built, v.journal.value, Searchable(v.phase.msg));
    }
  }

  lemma RowFinalised(v: View, t: ThreadId)
    requires ThreadOk(v) && v.phase.Written? && !v.wiped
    ensures Keeps(v, WithRow(v, t, v.phase.msg))
  {
    var w := WithRow(v, t, v.phase.msg);
    FinalGrows(v, t);
    FinalisedTrail(v, t);
    FinalisedComplete(v, t);
    FinalisedCache(v, w);
    FinalisedBuild(v, w, v.phase.msg);
  }

  lemma FinalisedCache(v: View, w: View)
    requires CacheOk(v) && v.phase.Written? && w.phase.Free? && w.stale == v.stale && w.skipped == v.skipped
    requires !v.wiped && w.wiped == v.wiped
    requires Final(w) == Final(v) + [Searchable(v.phase.msg)]
    requires w.cached == if v.cached.Some? then Some(AddRow(v.cached.value, v.phase.msg)) else None
    ensures CacheOk(w)
  {
    if v.cached.Some? && !v.stale {
      assert Final(w)[v.skipped..] == Final(v)[v.skipped..] + [Searchable(v.phase.msg)];
      AddRowsSnoc(map[], Final(v)[v.skipped..], Searchable(v.phase.msg));
    }
  }

  lemma FinalisedBuild(v: View, w: View, m: Message)
    requires BuildOk(v) && w.stale == v.stale && w.scan == v.scan && w.cached.None? == v.cached.None?
    requires Final(w) == Final(v) + [Searchable(m)]
    requires w.journal == if v.journal.Some? then Some(v.journal.value + [Searchable(m)]) else None
    ensures BuildOk(w)
  {
    if v.journal.Some? && !v.stale {
      if v.scan.Done? {
        AddRowsSnoc(v.scan.built, v.journal.value, Searchable(m));
        AddRowsSnoc(map[], Final(v), Searchable(m));
      } else {
        CoveredAppend(v.journal.value, Final(v), Searchable(m));
      }
    }
  }

  /** A cut at `k` removes rows the running build holds. */
  predicate CutHurts(v: View, k: nat)
    requires k <= |v.rows|
  {
    v.journal.Some? && (!v.scan.Todo? || !Covered(v.journal.value, v.rows[..k]))
  }

  function AfterCut(v: View, k: nat): View
    requires k <= |v.rows|
  {
    v.(phase := Cut(v.rows[..k]), rows := v.rows[..k], stale := v.stale || CutHurts(v, k))
  }

  /** Cutting rows: only a cut that hurts makes the thread stale. */
  lemma RowsCut(v: View, k: nat)
    requires ThreadOk(v) && v.phase.Free? && k < |v.rows| && !v.wiped
    ensures Keeps(v, AfterCut(v, k))
  {
    var w := AfterCut(v, k);
    assert forall i | 0 <= i < k :: Final(w)[i] == Final(v)[i];
    if v.journal.Some? {
      CoveredSearchable(v.journal.value, v.rows[..k]);
    }
  }

  /** What publishing now would give this thread. */
  function WouldPublish(v: View): Indexed
    requires v.journal.Some?
  {
    AddRows(if v.scan.Done? then v.scan.built else AddRows(map[], v.rows), v.journal.value)
  }

  /** Every indexed id is that of a row. */
  predicate OnlyIdsOf(indexed: Indexed, rows: Rows) {
    forall id | id in indexed :: IndexOf(rows, id).Some?
  }

  /** Cutting at the first row with some id, while a build is under way: publishing would still
      give the index of the kept rows exactly if the cut does not hurt; if it does, a removed id
      would be published. */
  lemma CutHurtsIff(v: View, k: nat, id: MessageId)
    requires ThreadOk(v) && v.phase.Free? && !v.stale && v.journal.Some? && IndexOf(v.rows, id) == Some(k)
    ensures OnlyIdsOf(WouldPublish(AfterCut(v, k)), v.rows[..k]) <==> !CutHurts(v, k)
    ensures WouldPublish(AfterCut(v, k)) == FirstOf(v.rows[..k]) <==> !CutHurts(v, k)
  {
    var kept, journal := v.rows[..k], v.journal.value;
    var built := if v.scan.Done? then v.scan.built else AddRows(map[], kept);
    IndexOfExact(v.rows, id);
    IndexOfExact(kept, id);
    forall i: MessageId ensures i in FirstOf(kept) <==> IndexOf(kept, i).Some? {
      FirstOfMeaning(kept, i);
    }
    if v.scan.Done? {
      IndexOfSearchable(v.rows, id);
      FirstOfMeaning(Final(v), id);
      assert id in WouldPublish(AfterCut(v, k));
    } else if Covered(journal, kept) {
      CoveredAddsNothing(journal, kept);
    } else {
      AddRowsKeys(built, journal);
      var j :| 0 <= j < |journal| && IndexOf(kept, journal[j].id).None?;
      assert journal[j].id in WouldPublish(AfterCut(v, k));
    }
  }

  lemma StatsRecorded(v: View, t: ThreadId, kept: Rows)
    requires ThreadOk(v) && v.phase == Cut(kept)
    ensures Keeps(v, v.(phase := Evicting, entry := ApplyOwn(v.entry, Stats(t, |kept|, LastTime(v.entry, kept)))))
  {
    var w := v.(phase := Evicting, entry := ApplyOwn(v.entry, Stats(t, |kept|, LastTime(v.entry, kept))));
    assert Final(w) == Final(v);
    LastTimeOfFinal(w.entry, v.rows);
  }

  /** Evicting from a warm index: the rows so far are left out, later ones will be indexed. */
  function AfterEvict(v: View): View {
    if v.cached.None? then v.(phase := Free)
    else v.(phase := Free, cached := Some(map[]), skipped := |v.rows|, stale := false)
  }

  lemma Evicted(v: View)
    requires ThreadOk(v) && v.phase.Evicting?
    ensures Keeps(v, AfterEvict(v))
  {
    var w := AfterEvict(v);
    assert Final(w) == Final(v) && |Final(w)| == |v.rows|;
    assert Final(w)[|v.rows|..] == [];
    assert RowsOk(w) && BuildOk(w) && (TrailOk(v) ==> TrailOk(w));
  }

  predicate SameTrail(a: ThreadEntry, b: ThreadEntry) {
    a.createdAt == b.createdAt && a.messageCount == b.messageCount && a.lastMessageAt == b.lastMessageAt
  }

  /** A log entry of the thread that keeps its trail. */
  lemma EntryReplaced(v: View, entry: ThreadEntry)
    requires ThreadOk(v) && v.phase.Free? && !v.wiped
    requires v.entry.Some? ==> SameTrail(v.entry.value, entry)
    requires v.entry.None? ==> entry.messageCount == None && entry.lastMessageAt == None
    ensures Keeps(v, v.(entry := Some(entry)))
  {
    assert Final(v.(entry := Some(entry))) == Final(v);
  }

  lemma TrailRepaired(v: View, w: View)
    requires ThreadOk(v) && v.phase.Free? && v.entry.Some?
    requires w == v.(entry := ApplyOwn(v.entry, Stats("", |v.rows|, LastTime(v.entry, v.rows))))
    ensures Keeps(v, w)
  {
    assert Final(w) == Final(v);
    LastTimeOfFinal(w.entry, w.rows);
  }

  lemma RowPatched(v: View, id: MessageId, extraMetadata: Option<string>)
    requires ThreadOk(v) && v.phase.Free? && IndexOf(v.rows, id).Some?
    ensures Keeps(v, v.(rows := Patched(v.rows, id, extraMetadata)))
  {
    var w := v.(rows := Patched(v.rows, id, extraMetadata));
    if UniqueAgentIds(v.rows) {
      PatchKeepsUnique(v.rows, id, extraMetadata);
    }
    PatchKeepsSearchable(v.rows, id, extraMetadata);
    assert Final(w) == Final(v);
    assert |w.rows| == |v.rows|;
  }

  lemma Tombstoned(v: View)
    requires ThreadOk(v) && v.phase.Locked?
    ensures Keeps(v, v.(phase := Unlinking, entry := None))
  {
    assert Final(v.(phase := Unlinking, entry := None)) == Final(v);
  }

  lemma RowsUnlinked(v: View)
    requires ThreadOk(v) && v.phase.Unlinking? && v.scan.NoScan?
    ensures Keeps(v, v.(phase := Unlinked, rows := []))
  {
  }

  function AfterDelete(v: View): View {
    v.(phase := Free, cached := if v.cached.Some? then Some(map[]) else None, skipped := 0, stale := false)
  }

  lemma DeletedThreadEvicted(v: View)
    requires ThreadOk(v) && v.phase.Unlinked? && v.scan.NoScan?
    ensures Keeps(v, AfterDelete(v))
  {
  }

  // ---- Sections that touch every thread ---------------------------------------------------

  lemma BuildOpened(v: View)
    requires ThreadOk(v) && v.scan.NoScan? && v.cached.None?
    ensures Keeps(v, v.(journal := Some([]), scan := Todo, stale := false))
  {
  }

  lemma BuildCancelled(v: View)
    requires ThreadOk(v)
    ensures Keeps(v, v.(journal := None, scan := NoScan))
  {
  }

  /** A thread outside the snapshot is dead, hence empty: nothing of it can be missed. */
  lemma SnapshotTaken(v: View)
    requires ThreadOk(v) && v.scan.Todo? && !v.phase.Unlinking?
    ensures Keeps(v, v.(scan := if v.entry.Some? then Todo else Done(map[])))
  {
    if v.entry.None? && !v.stale {
      assert Final(v) == [] && v.journal.value == [] by {
        assert |v.journal.value| > 0 ==> IndexOf(Final(v), v.journal.value[0].id).Some?;
      }
    }
  }

  lemma JournalAddsNothing(rows: Rows, journal: Rows)
    requires Covered(journal, SearchableRows(rows))
    ensures AddRows(AddRows(map[], rows), journal) == FirstOf(SearchableRows(rows))
  {
    FirstOfSearchable(map[], rows);
    CoveredAddsNothing(journal, SearchableRows(rows));
  }

  /** Scanning under the thread lock: rows journaled before the scan add nothing after it. */
  lemma ThreadScanned(v: View)
    requires ThreadOk(v) && v.phase.Free? && v.scan.Todo?
    ensures Keeps(v, v.(scan := Done(AddRows(map[], v.rows))))
  {
    if !v.stale {
      JournalAddsNothing(v.rows, v.journal.value);
    }
    var w := v.(scan := Done(AddRows(map[], v.rows)));
    assert Final(w) == Final(v);
    AddRowsKeys(map[], v.rows);
    AddRowsKeys(w.scan.built, v.journal.value);
  }

  lemma Published(v: View)
    requires ThreadOk(v) && v.scan.Done? && v.journal.Some?
    ensures Keeps(v, v.(cached := Some(AddRows(v.scan.built, v.journal.value)), journal := None, scan := NoScan,
                        skipped := 0))
  {
    assert Final(v)[0..] == Final(v);
  }

  lemma StoreWiped(v: View)
    requires ThreadOk(v) && v.phase.Free? && v.scan.NoScan?
    ensures Keeps(v, v.(entry := None, rows := [], wiped := true))
  {
  }

  lemma CacheDropped(v: View)
    requires ThreadOk(v) && v.phase.Free? && v.wiped && v.scan.NoScan?
    ensures Keeps(v, v.(cached := None, skipped := 0, stale := false, wiped := false))
  {
  }
}
