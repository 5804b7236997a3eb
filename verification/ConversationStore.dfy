/** The conversation store as its callers use it, one operation at a time. */
module ConversationStoreModule {
  import opened Wrappers
  import opened Types
  import opened ThreadLog
  import opened Transcript
  import opened StoreState
  import opened SoloStore
  import opened StoreContracts
  import opened ThreadListing
  import StoreProtocol

  datatype StoreError = ThreadNotFound | MessageNotFound

  /** `find_message_by_id`: the first row with this id. */
  method FindMessageById(rows: Rows, id: MessageId) returns (r: Option<nat>)
    ensures r == IndexOf(rows, id)
  {
    IndexOfExact(rows, id);
    for i := 0 to |rows|
      invariant forall j | 0 <= j < i :: rows[j].id != id
    {
      if rows[i].id == id {
        return Some(i);
      }
    }
    return None;
  }

  // ---- The store --------------------------------------------------------------------------------

  class ConversationStore {
    /** RFC 3339 parsing, with the least value for bad input. */
    const millis: string -> int

    var log: Log
    var transcripts: map<ThreadId, Rows>
    var cache: Option<Index>
    /** History: leading rows per thread that a truncation left out of the warm index. */
    ghost var skipped: map<ThreadId, nat>

    ghost function Abs(): Store
      reads this
    {
      Store(log, transcripts, cache, None)
    }

    /** Trails, ids and index agree with the transcripts, thread by thread. */
    ghost predicate Valid()
      reads this
    {
      Healthy(Abs(), skipped)
    }

    constructor (millis: string -> int)
      ensures Valid() && Abs() == Store([], map[], None, None)
      ensures this.millis == millis
    {
      this.millis := millis;
      log, transcripts, cache, skipped := [], map[], None, map[];
    }

    method Rows(t: ThreadId) returns (rows: Rows)
      ensures rows == RowsOf(Abs(), t)
    {
      rows := if t in transcripts then transcripts[t] else [];
    }

    /** The summary of one thread: the folded stats where both are present, else measured, else,
        with an unreadable transcript, what there is of the folded stats. */
    method ThreadSummary(t: ThreadId, unreadable: set<ThreadId>) returns (r: Option<Summary>)
      requires Valid()
      ensures r == if t in Fold(log) then Some(Shown(Abs(), t, unreadable)) else None
      ensures r.Some? ==> ShowsThread(r.value, Abs(), t, unreadable)
    {
      var index := ThreadIndexOf(log);
      if t !in index {
        return None;
      }
      var entry := index[t];
      ShownShows(Abs(), t, unreadable);
      TrailIsMeasured(Abs(), skipped, t);
      if entry.messageCount.Some? && entry.lastMessageAt.Some? {
        return Some(SummaryWith(t, entry, entry.messageCount.value, entry.lastMessageAt.value));
      }
      if t in unreadable {
        return Some(Listed(t, entry));
      }
      var rows := Rows(t);
      return Some(SummaryWith(t, entry, |rows|, LastTime(Some(entry), rows)));
    }

    method EnsureThread(t: ThreadId, title: string, createdAt: string, parent: Option<ThreadId>,
                        labels: Option<seq<string>>, personality: Option<string>,
                        unreadable: set<ThreadId>)
      returns (summary: Summary)
      requires Valid()
      modifies this
      ensures Valid() && Abs() == Ensured(old(Abs()), t, title, createdAt, parent, labels, personality)
      ensures ThreadEnsured(old(Abs()), Abs(), t, title, createdAt, parent, labels, personality)
      ensures t in Fold(log) && summary == Shown(Abs(), t, unreadable) && ShowsThread(summary, Abs(), t, unreadable)
    {
      EnsureMeans(Abs(), t, title, createdAt, parent, labels, personality);
      var given := None;
      if labels.Some? {
        var normalized := NormalizeLabels(labels.value);
        given := Some(normalized);
      }
      log := log + [Upsert(t, title, createdAt, createdAt, parent, given, personality)];
      OpKeepsHealthy(old(Abs()), skipped,
                     Update(StoreProtocol.Ensure(t, title, createdAt, parent, labels, personality)));
      assert log[..|log| - 1] == old(log);
      var r := ThreadSummary(t, unreadable);
      summary := r.value;
    }

    method GetMessages(t: ThreadId) returns (rows: Rows)
      ensures rows == if t in Fold(log) then RowsOf(Abs(), t) else []
    {
      var index := ThreadIndexOf(log);
      if t !in index {
        return [];
      }
      rows := Rows(t);
    }

    /** Append a row, its stat entry and its index entry. A deterministic id already present
        returns the stored row and writes nothing. */
    method AppendMessage(t: ThreadId, m: Message) returns (r: Result<Message, StoreError>)
      requires Valid()
      modifies this
      ensures Valid() && skipped == old(skipped)
      ensures Abs() == SoloAppend(old(Abs()), t, m)
      ensures r == if t !in Fold(old(log)) then Err(ThreadNotFound)
                   else if AppendRepeats(old(Abs()), t, m)
                     then Ok(RowsOf(old(Abs()), t)[IndexOf(RowsOf(old(Abs()), t), m.id).value])
                   else Ok(m)
      ensures AppendPromise(old(Abs()), Abs(), t, m, if r.Ok? then Some(r.value) else None)
    {
      var index := ThreadIndexOf(log);
      if t !in index {
        return Err(ThreadNotFound);
      }
      var rows := Rows(t);
      if IsDeterministicId(m.id) {
        var existing := FindMessageById(rows, m.id);
        if existing.Some? {
          RepeatMeans(Abs(), t, m);
          return Ok(rows[existing.value]);
        }
      }
      AppendMeans(Abs(), t, m);
      transcripts := transcripts[t := rows + [m]];
      if cache.Some? {
        cache := Some(cache.value[t := AddRow(Of(cache.value, t), m)]);
      }
      log := log + [MessageAppended(t, m.createdAt)];
      OpKeepsHealthy(old(Abs()), skipped, Append(t, m));
      return Ok(m);
    }

    method UpdateThreadTitle(t: ThreadId, title: string, at: string, unreadable: set<ThreadId>)
      returns (r: Result<Summary, StoreError>)
      requires Valid()
      modifies this
      ensures Valid() && Abs() == Retitled(old(Abs()), t, title, at)
      ensures t !in Fold(old(log)) ==> r == Err(ThreadNotFound)
      ensures t in Fold(old(log)) ==>
                && Fold(log) == Fold(old(log))[t := Fold(old(log))[t].(title := title)]
                && transcripts == old(transcripts) && cache == old(cache)
                && r == Ok(Shown(Abs(), t, unreadable)) && ShowsThread(r.value, Abs(), t, unreadable)
    {
      var index := ThreadIndexOf(log);
      if t !in index {
        return Err(ThreadNotFound);
      }
      log := log + [TitleUpdate(t, index[t], title, at)];
      OpKeepsHealthy(old(Abs()), skipped, Update(StoreProtocol.Retitle(t, title, at)));
      TitleUpdateOnlyTitle(old(log), t, title, at);
      var summary := ThreadSummary(t, unreadable);
      return Ok(summary.value);
    }

    method UpdateThreadLabels(t: ThreadId, labels: seq<string>, at: string, unreadable: set<ThreadId>)
      returns (r: Result<Summary, StoreError>)
      requires Valid()
      modifies this
      ensures Valid() && Abs() == Relabelled(old(Abs()), t, labels, at)
      ensures t !in Fold(old(log)) ==> r == Err(ThreadNotFound)
      ensures t in Fold(old(log)) ==>
                && Fold(log) == Fold(old(log))[t := Fold(old(log))[t].(labels := NormalizedLabels(labels))]
                && transcripts == old(transcripts) && cache == old(cache)
                && r == Ok(Shown(Abs(), t, unreadable)) && ShowsThread(r.value, Abs(), t, unreadable)
    {
      var index := ThreadIndexOf(log);
      if t !in index {
        return Err(ThreadNotFound);
      }
      log := log + [LabelsUpdate(t, index[t], labels, at)];
      OpKeepsHealthy(old(Abs()), skipped, Update(StoreProtocol.Relabel(t, labels, at)));
      LabelsUpdateOnlyLabels(old(log), t, labels, at);
      var summary := ThreadSummary(t, unreadable);
      return Ok(summary.value);
    }

    /** Patch the metadata of the first row with this id. */
    method UpdateMessage(t: ThreadId, id: MessageId, extraMetadata: Option<string>)
      returns (r: Result<Message, StoreError>)
      requires Valid()
      modifies this
      ensures Valid() && Abs() == MessageUpdated(old(Abs()), t, id, extraMetadata)
      ensures var k := IndexOf(RowsOf(old(Abs()), t), id);
              r == if k.None? then Err(MessageNotFound) else Ok(RowsOf(Abs(), t)[k.value])
      ensures UpdatePromise(old(Abs()), Abs(), t, id, extraMetadata, if r.Ok? then Some(r.value) else None)
    {
      UpdateMeans(Abs(), t, id, extraMetadata);
      var rows := Rows(t);
      var k := FindMessageById(rows, id);
      if k.None? {
        return Err(MessageNotFound);
      }
      if extraMetadata.Some? {
        rows := rows[k.value := rows[k.value].(extraMetadata := extraMetadata.value)];
      }
      transcripts := transcripts[t := rows];
      OpKeepsHealthy(old(Abs()), skipped, Update(StoreProtocol.UpdateMessage(t, id, extraMetadata)));
      return Ok(rows[k.value]);
    }

    /** Time of the newest of `rows`, or the thread's creation time when there is none. */
    method NewestTime(t: ThreadId, rows: Rows) returns (last: string)
      ensures last == LastTime(FoldThread(log, t), rows)
    {
      if rows != [] {
        return rows[|rows| - 1].createdAt;
      }
      var index := ThreadIndexOf(log);
      FoldIsPerThread(log, t);
      last := if t in index then index[t].createdAt else "";
    }

    /** Cut the transcript at the first row with this id, record the new stats, evict the thread
        from a warm index. Returns how many rows went. */
    method DeleteMessagesFrom(t: ThreadId, id: MessageId) returns (removed: Option<nat>)
      requires Valid()
      modifies this
      ensures Valid() && Abs() == SoloTruncate(old(Abs()), t, id)
      ensures skipped == SkippedAfterTruncate(old(Abs()), old(skipped), t, id)
      ensures removed.None? ==> IndexOf(RowsOf(old(Abs()), t), id).None? && Abs() == old(Abs())
      ensures removed.Some? ==> |RowsOf(Abs(), t)| + removed.value == |RowsOf(old(Abs()), t)|
                                && RowsOf(Abs(), t) <= RowsOf(old(Abs()), t)
                                && id !in (set m | m in RowsOf(Abs(), t) :: m.id)
      ensures CutPromise(old(Abs()), Abs(), t, id, removed)
    {
      FirstRowIs(RowsOf(Abs(), t), id);
      var rows := Rows(t);
      var cut := FindMessageById(rows, id);
      if cut.None? {
        return None;
      }
      IndexOfExact(rows, id);
      RowsAreLive(Abs(), skipped, t);
      CutMeans(Abs(), t, id);
      var kept := rows[..cut.value];
      transcripts := transcripts[t := kept];
      var last := NewestTime(t, kept);
      log := log + [Stats(t, |kept|, last)];
      if cache.Some? {
        cache := Some(cache.value - {t});
        skipped := skipped[t := |kept|];
      }
      OpKeepsHealthy(old(Abs()), old(skipped), Truncate(t, id));
      return Some(|rows| - cut.value);
    }

    method DeleteThread(t: ThreadId, at: string) returns (existed: bool)
      requires Valid()
      modifies this
      ensures Valid() && Abs() == SoloDelete(old(Abs()), t, at)
      ensures existed <==> t in Fold(old(log))
      ensures existed ==> Fold(log) == Fold(old(log)) - {t} && RowsOf(Abs(), t) == []
      ensures if existed then ThreadGone(old(Abs()), Abs(), t) else Abs() == old(Abs())
    {
      var index := ThreadIndexOf(log);
      if t !in index {
        return false;
      }
      DeleteMeans(Abs(), t, at);
      log := log + [Delete(t, at)];
      transcripts := transcripts - {t};
      if cache.Some? {
        cache := Some(cache.value - {t});
      }
      skipped := skipped - {t};
      DeleteKeepsHealthy(old(Abs()), old(skipped), t, at);
      assert log[..|log| - 1] == old(log);
      return true;
    }

    /** Append the stats of one missing trail and bring its folded entry in line. */
    method RepairFolded(t: ThreadId, index: ThreadIndex, ghost was: Store, ghost done: set<ThreadId>)
      returns (index': ThreadIndex)
      requires Valid() && index == Fold(log) == FoldRepaired(was, done) && transcripts == was.transcripts
      requires t in Fold(was.log) && t !in done && TrailMissing(Fold(was.log)[t])
      modifies this`log
      ensures Valid() && index' == Fold(log) == FoldRepaired(was, done + {t})
    {
      RepairOneMore(was, Abs(), done, t);
      OpKeepsHealthy(Abs(), skipped, Update(StoreProtocol.Repair(t)));
      FoldIsPerThread(log, t);
      var rows := Rows(t);
      var last := LastTime(Some(index[t]), rows);
      log := log + [Stats(t, |rows|, last)];
      index' := index[t := index[t].(messageCount := Some(|rows|), lastMessageAt := Some(last))];
      assert Abs() == Repaired(old(Abs()), t);
    }

    /** Fold once, append the stats of every missing trail that can be measured, and bring the
        folded entries in line. */
    method RepairReadable(unreadable: set<ThreadId>) returns (index: ThreadIndex)
      requires Valid()
      modifies this`log
      ensures Valid() && index == Fold(log)
      ensures Fold(log) == FoldRepaired(old(Abs()), MissingTrails(Fold(old(log))) - unreadable)
    {
      ghost var was := Abs();
      index := ThreadIndexOf(log);
      ghost var missing := MissingTrails(index);
      var todo := MissingTrails(index);
      ghost var done := {};
      while todo != {}
        invariant Valid() && index == Fold(log) == FoldRepaired(was, done)
        invariant todo <= missing && todo !! done && done == missing - todo - unreadable
        decreases todo
      {
        var t :| t in todo;
        todo := todo - {t};
        if t in unreadable {
          continue;
        }
        index := RepairFolded(t, index, was, done);
        done := done + {t};
      }
      assert done == missing - unreadable;
    }

    /** `list_threads_unlocked`: repair what can be, list the folded entries. */
    method ListThreadsUnlocked(unreadable: set<ThreadId>) returns (threads: seq<Summary>)
      requires Valid()
      modifies this`log
      ensures Valid() && IsListing(threads, ShownAll(old(Abs()), unreadable), millis)
      ensures ListsThreads(threads, old(Abs()), unreadable, millis)
      ensures Fold(log) == FoldRepaired(old(Abs()), MissingTrails(Fold(old(log))) - unreadable)
    {
      ghost var was := Abs();
      var index := RepairReadable(unreadable);
      threads := ThreadsFromIndex(millis, index);
      RepairedIsShown(was, skipped, unreadable);
      AllShow(threads, was, unreadable, millis);
    }

    /** Wipe everything; report how many threads and rows went, an unreadable transcript without
        recorded stats as empty. */
    method PurgeThreads(unreadable: set<ThreadId>) returns (threadCount: nat, messageCount: nat)
      requires Valid()
      modifies this
      ensures Valid() && Abs() == SoloPurge(old(Abs()))
      ensures threadCount == |Fold(old(log))|
      ensures messageCount == SumOver(Fold(old(log)).Keys, ShownCounts(old(Abs()), unreadable))
    {
      PurgeKeepsHealthy(Abs(), skipped);
      var threads := ListThreadsUnlocked(unreadable);
      threadCount, messageCount := Totals(threads, old(Abs()), unreadable, millis);
      log, transcripts, cache, skipped := [], map[], None, map[];
      assert Abs() == SoloPurge(old(Abs()));
    }

    /** Scan the transcript of every live thread into an empty index, but for unreadable ones. */
    method BuildIndex(unreadable: set<ThreadId>) returns (built: Index)
      requires Valid()
      ensures IsIndexExcept(built, Abs(), unreadable)
    {
      var index := ThreadIndexOf(log);
      ghost var st := Abs();
      built := map[];
      var remaining := index.Keys;
      ghost var done := {};
      while remaining != {}
        invariant remaining <= index.Keys && done == index.Keys - remaining - unreadable
        invariant IsScanOf(built, st, done)
        decreases |remaining|
      {
        var t :| t in remaining;
        remaining := remaining - {t};
        if t in unreadable {
          continue;
        }
        ScanStep(st, built, done, t);
        built := ScanThread(built, Store(log, transcripts, cache, None), t);
        done := done + {t};
      }
      assert done == index.Keys - unreadable;
      ScanOfLiveIsIndex(st, skipped, built, unreadable);
    }

    /** Build the index from all transcripts that can be read, unless it is warm. What cannot be
        read stays out of it. */
    method PrimeIndexIfCold(unreadable: set<ThreadId>)
      requires Valid()
      modifies this
      ensures Valid() && cache.Some? && log == old(log) && transcripts == old(transcripts)
      ensures old(cache).Some? ==> cache == old(cache) && skipped == old(skipped)
      ensures old(cache).None? ==> IsIndexExcept(cache.value, Abs(), unreadable)
                                   && skipped == Unread(Abs(), unreadable)
    {
      if cache.Some? {
        return;
      }
      var built := BuildIndex(unreadable);
      PrimeKeepsHealthy(Abs(), skipped, built, unreadable);
      cache, skipped := Some(built), Unread(Abs(), unreadable);
      assert Abs() == old(Abs()).(cache := Some(built));
    }

    // ---- Listing, while others write --------------------------------------------------------

    /** Other callers' operations, run whole between two lock sections of this one. */
    method LetOthersRun(ops: seq<SoloOp>, ghost names: set<ThreadId>)
      requires Valid() && CreateWithin(ops, names)
      modifies this
      ensures Valid() && Advances(old(Abs()), Abs(), names)
      ensures ops == [] ==> Abs() == old(Abs())
    {
      for i := 0 to |ops|
        invariant Valid() && Advances(old(Abs()), Abs(), names)
        invariant i == 0 ==> Abs() == old(Abs())
      {
        var st := RunOp(Store(log, transcripts, cache, None), ops[i]);
        OpKeepsHealthy(Abs(), skipped, ops[i]);
        OpAdvances(old(Abs()), Abs(), ops[i], names);
        skipped := SkippedAfter(Abs(), skipped, ops[i]);
        log, transcripts, cache := st.log, st.transcripts, st.cache;
        assert Abs() == st;
      }
    }

    /** One repair: under the thread lock and metadata, fold again and measure if still needed. */
    method RepairThread(t: ThreadId, readable: bool) returns (quarantine: bool)
      requires Valid()
      modifies this
      ensures Valid()
      ensures quarantine <==> !readable && t in Fold(old(log)) && TrailMissing(Fold(old(log))[t])
      ensures Abs() == if quarantine then old(Abs()) else Repaired(old(Abs()), t)
    {
      var index := ThreadIndexOf(log);
      if t !in index || !TrailMissing(index[t]) {
        return false;
      }
      if !readable {
        return true;
      }
      var rows := Rows(t);
      FoldIsPerThread(log, t);
      log := log + [Stats(t, |rows|, LastTime(Some(index[t]), rows))];
      OpKeepsHealthy(old(Abs()), skipped, Update(StoreProtocol.Repair(t)));
      return false;
    }

    /** Repair one thread or quarantine it. */
    method RepairNext(t: ThreadId, unreadable: set<ThreadId>, quarantined: set<ThreadId>, ghost was: Store)
      returns (quarantined': set<ThreadId>)
      requires Valid() && quarantined <= unreadable && t !in quarantined
      modifies this
      ensures Valid() && quarantined' <= unreadable && quarantined <= quarantined' <= quarantined + {t}
      ensures Fold(log).Keys == Fold(old(log)).Keys
      ensures Pending(Abs(), quarantined') == Pending(old(Abs()), quarantined) - {t}
      ensures RepairsOnly(was, old(Abs()), quarantined) ==> RepairsOnly(was, Abs(), quarantined')
    {
      var quarantine := RepairThread(t, t !in unreadable);
      RepairOrQuarantine(was, old(Abs()), quarantined, t, quarantine);
      quarantined' := if quarantine then quarantined + {t} else quarantined;
    }

    /** Repair what was found missing, one lock section each; `k` counts the sections. */
    method RepairAll(missing: set<ThreadId>, unreadable: set<ThreadId>, quarantined: set<ThreadId>,
                     others: nat -> seq<SoloOp>, k: nat, ghost names: set<ThreadId>, ghost was: Store)
      returns (quarantined': set<ThreadId>, k': nat)
      requires Valid() && quarantined <= unreadable && missing !! quarantined
      requires forall i: nat :: CreateWithin(others(i), names)
      modifies this
      ensures Valid() && quarantined' <= unreadable
      ensures Fold(old(log)).Keys <= Fold(log).Keys <= Fold(old(log)).Keys + names
      ensures Fold(log).Keys == Fold(old(log)).Keys ==>
                Pending(Abs(), quarantined') <= Pending(old(Abs()), quarantined) - missing
      ensures (forall i: nat :: others(i) == []) && RepairsOnly(was, old(Abs()), quarantined) ==>
                RepairsOnly(was, Abs(), quarantined')
    {
      quarantined', k' := quarantined, k;
      var todo := missing;
      ghost var start := Abs();
      while todo != {}
        invariant Valid() && quarantined' <= unreadable && todo <= missing && todo !! quarantined'
        invariant Repairing(start, quarantined, Abs(), quarantined', missing - todo, names)
        invariant (forall i: nat :: others(i) == []) && RepairsOnly(was, start, quarantined) ==>
                    RepairsOnly(was, Abs(), quarantined')
        decreases todo
      {
        var t :| t in todo;
        ghost var before, quarantinedBefore := Abs(), quarantined';
        LetOthersRun(others(k'), names);
        k' := k' + 1;
        ghost var mid := Abs();
        quarantined' := RepairNext(t, unreadable, quarantined', was);
        RepairingStep(start, quarantined, before, quarantinedBefore, missing - todo, mid, t, Abs(), quarantined', names);
        assert missing - todo + {t} == missing - (todo - {t});
        todo := todo - {t};
      }
    }

    /** `list_threads_coordinated`: fold, repair every missing trail one lock section at a time,
        fold again, until nothing readable is missing. `others(k)` is what other callers do before
        the k-th lock section, for ever; all that is asked of them is that the threads they create
        are finitely many. Measuring fails for the threads in `unreadable`. */
    method ListThreadsCoordinated(unreadable: set<ThreadId>, others: nat -> seq<SoloOp>, ghost names: set<ThreadId>)
      returns (threads: seq<Summary>, quarantined: set<ThreadId>)
      requires Valid() && forall i: nat :: CreateWithin(others(i), names)
      modifies this
      ensures Valid()
      ensures quarantined <= unreadable
      ensures IsListing(threads, ListedAll(Fold(log)), millis)
      ensures MeasuredExcept(Abs(), quarantined)
      ensures ListsThreads(threads, Abs(), quarantined, millis)
      ensures (forall i: nat :: others(i) == []) ==> RepairsOnly(old(Abs()), Abs(), quarantined)
    {
      quarantined := {};
      var k := 0;
      while true
        invariant Valid() && quarantined <= unreadable
        invariant (forall i: nat :: others(i) == []) ==> RepairsOnly(old(Abs()), Abs(), quarantined)
        decreases |names - Fold(log).Keys|, |Pending(Abs(), quarantined)|
      {
        ghost var head, before := Abs(), quarantined;
        LetOthersRun(others(k), names);
        k := k + 1;
        var index := ThreadIndexOf(log);
        var missing := MissingTrails(index) - quarantined;
        if missing == {} {
          threads := ThreadsFromIndex(millis, index);
          NothingPending(Abs(), skipped, quarantined);
          QuarantinedShow(threads, Abs(), skipped, quarantined, millis);
          return;
        }
        ghost var found := Abs();
        quarantined, k := RepairAll(missing, unreadable, quarantined, others, k, names, old(Abs()));
        RoundLeavesLess(head, before, found, Abs(), quarantined, names);
      }
    }

    /** `list_threads` alone and with every transcript readable lists what measuring every
        transcript gives. */
    method ListThreads() returns (threads: seq<Summary>)
      requires Valid()
      modifies this
      ensures Valid()
      ensures IsListing(threads, MeasuredAll(old(Abs())), millis)
      ensures ListsThreads(threads, old(Abs()), {}, millis)
      ensures MeasuredAll(Abs()) == MeasuredAll(old(Abs()))
    {
      var quarantined;
      threads, quarantined := ListThreadsCoordinated({}, k => [], {});
      AllMeasured(threads, old(Abs()), Abs(), millis);
    }
  }
}
